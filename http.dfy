/**
 * The request and response shapes the gates work on, the outcome of running
 * one gate, and the first-match-wins route-prefix lookup shared by the
 * content-type and body-size gates.
 */
module Http {
  import opened Wrappers
  import opened Text
  import opened HttpErrors

  /** A value of the incoming header object: undefined, one string, or an array of strings. */
  datatype HeaderValue = Missing | Single(s: string) | Multi(vs: seq<string>)

  /** The header object as its `Object.entries` list: (name, value) in iteration order. */
  type Headers = seq<(string, HeaderValue)>

  /** The strings a gate inspects for one value: the array itself, or `[value ?? '']`. */
  function ValueList(v: HeaderValue): (r: seq<string>)
    ensures !v.Multi? ==> |r| == 1
  {
    match v
    case Missing => [""]
    case Single(s) => [s]
    case Multi(vs) => vs
  }

  /** `headers[name]`: the value under exactly that name, or undefined. */
  function Lookup(h: Headers, name: string): (v: HeaderValue)
    ensures v != Missing ==> exists i :: 0 <= i < |h| && h[i] == (name, v)
    ensures (forall i :: 0 <= i < |h| ==> h[i].0 != name) ==> v == Missing
  {
    if h == [] then Missing
    else if h[0].0 == name then h[0].1
    else Lookup(h[1..], name)
  }

  /** The names of a header list. */
  function Names(h: Headers): (r: seq<string>)
    ensures |r| == |h| && forall i :: 0 <= i < |h| ==> r[i] == h[i].0
  {
    if h == [] then [] else [h[0].0] + Names(h[1..])
  }

  /**
   * The result of one gate: continue the chain, abort it with an application
   * error, answer directly, or let a runtime TypeError escape (which the
   * global filter turns into a 500).
   */
  datatype Outcome = Continue | Fail(error: AppError) | Finished | Crash(reason: string)

  /** The parts of an incoming request the gates read (`verb` is `req.method`); only the header object is ever replaced. */
  class Request {
    const verb: string
    const path: string
    const url: string
    const originalUrl: Option<string>
    const ip: Option<string>
    var headers: Headers
    var paused: bool

    constructor (verb: string, path: string, url: string, originalUrl: Option<string>,
                 ip: Option<string>, headers: Headers)
      ensures this.verb == verb && this.path == path && this.url == url
      ensures this.originalUrl == originalUrl && this.ip == ip
      ensures this.headers == headers && !paused
    {
      this.verb := verb;
      this.path := path;
      this.url := url;
      this.originalUrl := originalUrl;
      this.ip := ip;
      this.headers := headers;
      this.paused := false;
    }

    /** `req.originalUrl ?? req.url`. */
    function FullPath(): string
      reads this
    {
      originalUrl.GetOr(url)
    }

    /** `req.pause()`: stop reading the body stream. */
    method Pause()
      modifies this
      ensures paused && headers == old(headers)
    {
      paused := true;
    }
  }

  /** The outgoing response: its header map, status and whether it was sent. */
  class Response {
    var headers: map<string, string>
    var headersSent: bool
    var statusCode: nat
    var ended: bool

    constructor (headers: map<string, string>)
      ensures this.headers == headers && !headersSent && statusCode == 200 && !ended
    {
      this.headers := headers;
      this.headersSent := false;
      this.statusCode := 200;
      this.ended := false;
    }

    method SetHeader(name: string, value: string)
      modifies this
      ensures headers == old(headers)[name := value]
      ensures headersSent == old(headersSent) && statusCode == old(statusCode) && ended == old(ended)
    {
      headers := headers[name := value];
    }

    method RemoveHeader(name: string)
      modifies this
      ensures headers == old(headers) - {name}
      ensures headersSent == old(headersSent) && statusCode == old(statusCode) && ended == old(ended)
    {
      headers := headers - {name};
    }

    /** `res.status(code).send()` with an empty body. */
    method SendStatus(code: nat)
      modifies this
      ensures statusCode == code && ended && headersSent
      ensures headers == old(headers)
    {
      statusCode := code;
      ended := true;
      headersSent := true;
    }
  }

  /** Override `i` is the first, in list order, whose prefix the path starts with. */
  predicate IsFirstMatch<T>(overrides: seq<(string, T)>, path: string, i: int) {
    0 <= i < |overrides| && StartsWith(path, overrides[i].0) &&
    forall j :: 0 <= j < i ==> !StartsWith(path, overrides[j].0)
  }

  /**
   * First-match-wins route-prefix lookup: the value of the first override,
   * in list order, whose prefix the path starts with.
   */
  function FirstMatch<T>(overrides: seq<(string, T)>, path: string): (r: Option<T>)
    ensures r.None? <==> forall i :: 0 <= i < |overrides| ==> !StartsWith(path, overrides[i].0)
    ensures r.Some? ==> exists i :: IsFirstMatch(overrides, path, i) && r.value == overrides[i].1
  {
    if overrides == [] then None
    else if StartsWith(path, overrides[0].0) then
      assert IsFirstMatch(overrides, path, 0);
      Some(overrides[0].1)
    else
      var r := FirstMatch(overrides[1..], path);
      assert r.Some? ==> exists i :: IsFirstMatch(overrides[1..], path, i) && r.value == overrides[1..][i].1;
      assert forall i :: IsFirstMatch(overrides[1..], path, i) ==> IsFirstMatch(overrides, path, i + 1);
      r
  }

  /** The first match is the value of that override. */
  lemma {:induction false} FirstMatchAt<T>(overrides: seq<(string, T)>, path: string, i: int)
    requires IsFirstMatch(overrides, path, i)
    ensures FirstMatch(overrides, path) == Some(overrides[i].1)
  {
    if i > 0 {
      assert !StartsWith(path, overrides[0].0);
      assert IsFirstMatch(overrides[1..], path, i - 1);
      FirstMatchAt(overrides[1..], path, i - 1);
    }
  }

  /** Overrides after the first match cannot change the outcome. */
  lemma {:induction false} FirstMatchIgnoresLater<T>(a: seq<(string, T)>, b: seq<(string, T)>, path: string)
    requires FirstMatch(a, path).Some?
    ensures FirstMatch(a + b, path) == FirstMatch(a, path)
  {
    assert (a + b)[0] == a[0];
    if !StartsWith(path, a[0].0) {
      assert (a + b)[1..] == a[1..] + b;
      FirstMatchIgnoresLater(a[1..], b, path);
    }
  }
}
