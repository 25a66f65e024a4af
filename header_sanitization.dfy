/**
 * The header sanitizer: every header name is lower-cased, then checked
 * against the block-list, against the names already seen in this request,
 * against the name syntax `^[A-Za-z0-9-]+$`, and its values against CR and
 * LF. The first violation rejects the request with a 400; otherwise the
 * request's header object is replaced by the allow-listed headers alone.
 */
module HeaderSanitization {
  import opened Wrappers
  import opened Text
  import opened HttpErrors
  import opened Http

  const Blocklist: set<string> := {
    "keep-alive", "proxy-authenticate", "proxy-authorization", "te", "trailer",
    "transfer-encoding", "upgrade", "proxy-connection", "x-forwarded-for",
    "x-forwarded-host", "x-forwarded-proto", "forwarded", "via", "client-ip",
    "true-client-ip"
  }

  const Allowlist: set<string> := {
    "host", "connection", "content-type", "content-length", "accept",
    "accept-language", "accept-encoding", "user-agent", "referer", "origin",
    "cookie", "sec-fetch-site", "sec-fetch-mode", "sec-fetch-dest", "sec-ch-ua",
    "sec-ch-ua-mobile", "sec-ch-ua-platform", "authorization", "x-csrf-token",
    "x-request-id", "x-api-key"
  }

  predicate IsNameChar(c: char) {
    ('A' <= c <= 'Z') || ('a' <= c <= 'z') || ('0' <= c <= '9') || c == '-'
  }

  /** The name matches `^[A-Za-z0-9-]+$`. */
  predicate ValidName(name: string) {
    |name| > 0 && forall i :: 0 <= i < |name| ==> IsNameChar(name[i])
  }

  /** One value string contains CR or LF. */
  predicate HasControlChars(v: string) {
    HasChar(v, '\r') || HasChar(v, '\n')
  }

  /** No string of the value (every array element; undefined counts as '') has CR or LF. */
  predicate ValueOk(v: HeaderValue) {
    forall s :: s in ValueList(v) ==> !HasControlChars(s)
  }

  /** The value stored for a kept header: `rawValue ?? ''`. */
  function Stored(v: HeaderValue): HeaderValue {
    if v == Missing then Single("") else v
  }

  /** The lower-cased names of a header list. */
  function LowerNames(h: Headers): set<string> {
    set i | 0 <= i < |h| :: Lower(h[i].0)
  }

  /**
   * The checks on one header, in the order the sanitizer runs them, given the
   * lower-cased names of the headers before it.
   */
  function EntryError(lower: string, v: HeaderValue, seen: set<string>): (e: Option<AppError>)
    ensures e.Some? ==> e.value.status() == 400
    ensures e.None? <==> lower !in Blocklist && lower !in seen && ValidName(lower) && ValueOk(v)
  {
    if lower in Blocklist then
      Some(Raise(BadRequest, Some("Header '" + lower + "' is not allowed.")))
    else if lower in seen then
      Some(Raise(BadRequest, Some("Duplicate header '" + lower + "' is not permitted.")))
    else if !ValidName(lower) then
      Some(Raise(BadRequest, Some("Header name '" + lower + "' contains invalid characters.")))
    else if !ValueOk(v) then
      Some(Raise(BadRequest, Some("Header value contains prohibited control characters.")))
    else
      None
  }

  /** One iteration of the sanitizer's loop, given the result so far and the names seen before. */
  function Step(acc: Result<Headers, AppError>, seen: set<string>, entry: (string, HeaderValue)): Result<Headers, AppError> {
    match acc
    case Err(e) => Err(e)
    case Ok(cleaned) =>
      var lower := Lower(entry.0);
      match EntryError(lower, entry.1, seen)
      case Some(e) => Err(e)
      case None => Ok(if lower in Allowlist then cleaned + [(lower, Stored(entry.1))] else cleaned)
  }

  /**
   * The sanitizer's effect on a header list, entry by entry: the first
   * violation, or the allow-listed headers keyed by lower-cased name.
   */
  function Sanitize(h: Headers): (r: Result<Headers, AppError>)
    ensures r.Err? ==> r.error.status() == 400
    ensures r.Ok? ==> |r.value| <= |h| && forall k :: 0 <= k < |r.value| ==> r.value[k].0 in Allowlist
    decreases |h|
  {
    if h == [] then Ok([])
    else
      var prefix := h[..|h| - 1];
      Step(Sanitize(prefix), LowerNames(prefix), h[|h| - 1])
  }

  lemma SanitizeSnoc(h: Headers, n: nat)
    requires n < |h|
    ensures Sanitize(h[..n + 1]) == Step(Sanitize(h[..n]), LowerNames(h[..n]), h[n])
  {
    var p := h[..n + 1];
    assert p[..|p| - 1] == h[..n];
    assert p[|p| - 1] == h[n];
  }

  /** Headers the sanitizer admits: no block-listed, badly named or CR/LF-carrying header, and no repeated name. */
  ghost predicate Acceptable(h: Headers) {
    (forall i :: 0 <= i < |h| ==>
      Lower(h[i].0) !in Blocklist && ValidName(Lower(h[i].0)) && ValueOk(h[i].1)) &&
    (forall i, j :: 0 <= i < j < |h| ==> Lower(h[i].0) != Lower(h[j].0))
  }

  lemma LowerNamesSnoc(h: Headers, n: nat)
    requires n < |h|
    ensures LowerNames(h[..n + 1]) == LowerNames(h[..n]) + {Lower(h[n].0)}
  {
    var a, b := h[..n + 1], h[..n];
    assert forall i :: 0 <= i < n ==> a[i] == b[i];
    assert a[n] == h[n];
  }

  lemma {:induction false} SanitizeErrPersists(h: Headers, n: nat)
    requires n <= |h| && Sanitize(h[..n]).Err?
    ensures Sanitize(h) == Sanitize(h[..n])
    decreases |h| - n
  {
    if n < |h| {
      SanitizeSnoc(h, n);
      SanitizeErrPersists(h, n + 1);
    } else {
      assert h[..n] == h;
    }
  }

  /** The sanitizer admits a header list exactly when it is Acceptable. */
  lemma {:induction false} SanitizeAcceptsIff(h: Headers)
    ensures Sanitize(h).Ok? <==> Acceptable(h)
    decreases |h|
  {
    if h != [] {
      var prefix := h[..|h| - 1];
      SanitizeAcceptsIff(prefix);
      assert forall i :: 0 <= i < |prefix| ==> prefix[i] == h[i];
      assert LowerNames(prefix) == set i | 0 <= i < |h| - 1 :: Lower(h[i].0);
    }
  }

  /** A reference description of what is kept: allow-listed headers under their lower-cased names, values as received. */
  ghost predicate KeepsExactly(h: Headers, cleaned: Headers) {
    forall name, v ::
      (name, v) in cleaned <==>
        exists i :: 0 <= i < |h| && Lower(h[i].0) == name && name in Allowlist && v == Stored(h[i].1)
  }

  /** The allow-listed headers of a list, in order, as a reference definition by head recursion. */
  function Allowed(h: Headers): Headers {
    if h == [] then []
    else
      (if Lower(h[0].0) in Allowlist then [(Lower(h[0].0), Stored(h[0].1))] else [])
      + Allowed(h[1..])
  }

  lemma {:induction false} AllowedAppend(a: Headers, b: Headers)
    ensures Allowed(a + b) == Allowed(a) + Allowed(b)
  {
    if a == [] {
      assert a + b == b;
    } else {
      assert (a + b)[0] == a[0] && (a + b)[1..] == a[1..] + b;
      AllowedAppend(a[1..], b);
    }
  }

  /** `Allowed` keeps exactly the allow-listed headers, under lower-cased names, values as received. */
  lemma {:induction false} AllowedMembers(h: Headers)
    ensures KeepsExactly(h, Allowed(h))
  {
    if h != [] {
      AllowedMembers(h[1..]);
      forall name, v
        ensures (name, v) in Allowed(h) <==>
          exists i :: 0 <= i < |h| && Lower(h[i].0) == name && name in Allowlist && v == Stored(h[i].1)
      {
        if (name, v) in Allowed(h[1..]) {
          var i :| 0 <= i < |h[1..]| && Lower(h[1..][i].0) == name && name in Allowlist && v == Stored(h[1..][i].1);
          assert h[i + 1] == h[1..][i];
        }
        if exists i :: 0 <= i < |h| && Lower(h[i].0) == name && name in Allowlist && v == Stored(h[i].1) {
          var i :| 0 <= i < |h| && Lower(h[i].0) == name && name in Allowlist && v == Stored(h[i].1);
          if i > 0 {
            assert h[1..][i - 1] == h[i];
          }
        }
      }
    }
  }

  /** Distinct lower-cased input names give distinct kept names. */
  lemma {:induction false} AllowedDistinct(h: Headers)
    requires forall i, j :: 0 <= i < j < |h| ==> Lower(h[i].0) != Lower(h[j].0)
    ensures forall i, j :: 0 <= i < j < |Allowed(h)| ==> Allowed(h)[i].0 != Allowed(h)[j].0
  {
    if h != [] {
      var t := h[1..];
      assert forall i, j :: 0 <= i < j < |t| ==> Lower(t[i].0) != Lower(t[j].0) by {
        forall i, j | 0 <= i < j < |t| ensures Lower(t[i].0) != Lower(t[j].0) {
          assert t[i] == h[i + 1] && t[j] == h[j + 1];
        }
      }
      AllowedDistinct(t);
      AllowedMembers(t);
      var rest := Allowed(t);
      forall k | 0 <= k < |rest|
        ensures rest[k].0 != Lower(h[0].0)
      {
        assert rest[k] in rest;
        var i :| 0 <= i < |t| && Lower(t[i].0) == rest[k].0 && rest[k].0 in Allowlist && rest[k].1 == Stored(t[i].1);
        assert t[i] == h[i + 1];
      }
    }
  }

  /** On success the sanitizer's result is the reference `Allowed`. */
  lemma {:induction false} SanitizeIsAllowed(h: Headers)
    requires Sanitize(h).Ok?
    ensures Sanitize(h).value == Allowed(h)
    decreases |h|
  {
    if h != [] {
      var prefix := h[..|h| - 1];
      SanitizeIsAllowed(prefix);
      assert h == prefix + [h[|h| - 1]];
      AllowedAppend(prefix, [h[|h| - 1]]);
      assert [h[|h| - 1]][1..] == [];
    }
  }

  /** On success the new header object holds exactly the allow-listed input headers, keyed by distinct lower-cased names, with values unchanged. */
  lemma SanitizeKeepsAllowlisted(h: Headers)
    requires Sanitize(h).Ok?
    ensures KeepsExactly(h, Sanitize(h).value)
    ensures forall i, j :: 0 <= i < j < |Sanitize(h).value| ==> Sanitize(h).value[i].0 != Sanitize(h).value[j].0
  {
    SanitizeIsAllowed(h);
    SanitizeAcceptsIff(h);
    AllowedMembers(h);
    AllowedDistinct(h);
  }

  lemma StepErr(acc: Result<Headers, AppError>, seen: set<string>, entry: (string, HeaderValue))
    requires acc.Ok? && EntryError(Lower(entry.0), entry.1, seen).Some?
    ensures Step(acc, seen, entry) == Err(EntryError(Lower(entry.0), entry.1, seen).value)
  {
  }

  /**
   * The error reported is that of the first header that fails a check: when
   * the headers `p` before header `x` pass, `x`'s violation is the answer,
   * whatever follows it.
   */
  lemma SanitizeReportsFirstViolation(p: Headers, x: (string, HeaderValue), q: Headers)
    requires Sanitize(p).Ok?
    requires EntryError(Lower(x.0), x.1, LowerNames(p)).Some?
    ensures Sanitize(p + [x] + q) == Err(EntryError(Lower(x.0), x.1, LowerNames(p)).value)
  {
    var px := p + [x];
    assert px[..|px| - 1] == p && px[|px| - 1] == x;
    StepErr(Sanitize(p), LowerNames(p), x);
    assert (px + q)[..|px|] == px;
    SanitizeErrPersists(px + q, |px|);
  }

  /** A block-listed header rejects the request, whatever the case of its name, unless an earlier header already did. */
  lemma BlockedHeaderRejected(p: Headers, x: (string, HeaderValue), q: Headers)
    requires Sanitize(p).Ok?
    requires Lower(x.0) in Blocklist
    ensures Sanitize(p + [x] + q) == Err(AppError(BadRequest, "Header '" + Lower(x.0) + "' is not allowed."))
  {
    SanitizeReportsFirstViolation(p, x, q);
  }

  /** A name already seen, after lower-casing, rejects the request as a duplicate unless it is block-listed. */
  lemma DuplicateHeaderRejected(p: Headers, x: (string, HeaderValue), q: Headers)
    requires Sanitize(p).Ok?
    requires Lower(x.0) !in Blocklist && Lower(x.0) in LowerNames(p)
    ensures Sanitize(p + [x] + q) == Err(AppError(BadRequest, "Duplicate header '" + Lower(x.0) + "' is not permitted."))
  {
    SanitizeReportsFirstViolation(p, x, q);
  }

  /** Names are compared only after lower-casing: changing their case changes nothing. */
  lemma {:induction false} SanitizeIgnoresNameCase(h: Headers, g: Headers)
    requires |h| == |g|
    requires forall i :: 0 <= i < |h| ==> Lower(h[i].0) == Lower(g[i].0) && h[i].1 == g[i].1
    ensures Sanitize(h) == Sanitize(g)
    decreases |h|
  {
    if h != [] {
      var ph, pg := h[..|h| - 1], g[..|g| - 1];
      SanitizeIgnoresNameCase(ph, pg);
      assert LowerNames(ph) == LowerNames(pg) by {
        assert forall i :: 0 <= i < |ph| ==> Lower(ph[i].0) == Lower(pg[i].0);
      }
    }
  }

  /** The sanitizer's loop over the entries, with its `seen` set and `cleaned` record. */
  method Clean(h: Headers) returns (r: Result<Headers, AppError>)
    ensures r == Sanitize(h)
  {
    var seen: set<string> := {};
    var cleaned: Headers := [];
    var i := 0;
    while i < |h|
      invariant 0 <= i <= |h|
      invariant seen == LowerNames(h[..i])
      invariant Sanitize(h[..i]) == Ok(cleaned)
    {
      var (name, rawValue) := h[i];
      var lower := Lower(name);
      SanitizeSnoc(h, i);
      LowerNamesSnoc(h, i);
      var e := EntryError(lower, rawValue, seen);
      if e.Some? {
        SanitizeErrPersists(h, i + 1);
        return Err(e.value);
      }
      seen := seen + {lower};
      if lower in Allowlist {
        cleaned := cleaned + [(lower, Stored(rawValue))];
      }
      i := i + 1;
    }
    assert h[..i] == h;
    r := Ok(cleaned);
  }

  /**
   * The middleware: on the first violation the request is rejected and its
   * headers are left as they were; otherwise they are replaced by the
   * cleaned set and the chain continues.
   */
  method SanitizeRequest(req: Request) returns (o: Outcome)
    modifies req
    ensures Sanitize(old(req.headers)).Err? ==>
      o == Fail(Sanitize(old(req.headers)).error) && req.headers == old(req.headers)
    ensures Sanitize(old(req.headers)).Ok? ==>
      o == Continue && req.headers == Sanitize(old(req.headers)).value
    ensures req.paused == old(req.paused)
  {
    var r := Clean(req.headers);
    match r
    case Err(e) =>
      o := Fail(e);
    case Ok(cleaned) =>
      req.headers := cleaned;
      o := Continue;
  }
}
