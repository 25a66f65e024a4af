/**
 * The content-type gate. Body-less methods must not carry a
 * `content-type`. POST, PUT and PATCH must carry one, and its media type
 * (the text before the first ';', trimmed and lower-cased) must be in the
 * allowed set. That set comes from the first route override whose prefix
 * the path starts with, or else from the default set. Every other method
 * passes unchecked.
 */
module ContentType {
  import opened Wrappers
  import opened Text
  import opened Collections
  import opened HttpErrors
  import opened Http

  datatype RouteOverride = RouteOverride(prefix: string, allowed: seq<string>)

  datatype ContentTypeOptions = ContentTypeOptions(
    defaultAllowed: Option<seq<string>>,
    routeOverrides: Option<seq<RouteOverride>>)

  /** The gate as constructed: the overrides in list order and the default set in insertion order. */
  datatype Config = Config(routeOverrides: seq<RouteOverride>, defaultAllowed: seq<string>)

  const NoBodyMethods: set<string> := {"GET", "DELETE", "HEAD", "OPTIONS"}
  const BodyMethods: set<string> := {"POST", "PUT", "PATCH"}
  const DefaultMediaTypes: seq<string> := ["application/json"]

  /** The constructor: no overrides and `{application/json}` unless configured. */
  function Configure(opts: ContentTypeOptions): (c: Config)
    ensures c.routeOverrides == opts.routeOverrides.GetOr([])
    ensures Distinct(c.defaultAllowed)
    ensures forall t :: t in c.defaultAllowed <==> t in opts.defaultAllowed.GetOr(DefaultMediaTypes)
  {
    Config(opts.routeOverrides.GetOr([]), Dedup(opts.defaultAllowed.GetOr(DefaultMediaTypes)))
  }

  function LowerAll(xs: seq<string>): (r: seq<string>)
    ensures |r| == |xs| && forall i :: 0 <= i < |xs| ==> r[i] == Lower(xs[i])
  {
    seq(|xs|, i requires 0 <= i < |xs| => Lower(xs[i]))
  }

  function Prefixes(ros: seq<RouteOverride>): (r: seq<(string, seq<string>)>)
    ensures |r| == |ros| && forall i :: 0 <= i < |ros| ==> r[i] == (ros[i].prefix, ros[i].allowed)
  {
    seq(|ros|, i requires 0 <= i < |ros| => (ros[i].prefix, ros[i].allowed))
  }

  /** `getAllowedFor(path)`: the lower-cased set of the first matching override, else of the default set. */
  function GetAllowedFor(c: Config, path: string): (r: seq<string>)
    ensures Distinct(r)
  {
    Dedup(LowerAll(FirstMatch(Prefixes(c.routeOverrides), path).GetOr(c.defaultAllowed)))
  }

  /** The first matching override decides, and its list is lower-cased. */
  lemma AllowedForOverride(c: Config, path: string, i: int)
    requires IsFirstMatch(Prefixes(c.routeOverrides), path, i)
    ensures forall t :: t in GetAllowedFor(c, path) <==>
      exists k :: 0 <= k < |c.routeOverrides[i].allowed| && t == Lower(c.routeOverrides[i].allowed[k])
  {
    FirstMatchAt(Prefixes(c.routeOverrides), path, i);
  }

  /** With no matching override, the lower-cased default set applies. */
  lemma AllowedForDefault(c: Config, path: string)
    requires forall i :: 0 <= i < |c.routeOverrides| ==> !StartsWith(path, c.routeOverrides[i].prefix)
    ensures forall t :: t in GetAllowedFor(c, path) <==>
      exists k :: 0 <= k < |c.defaultAllowed| && t == Lower(c.defaultAllowed[k])
  {
    var ps := Prefixes(c.routeOverrides);
    assert forall i :: 0 <= i < |ps| ==> !StartsWith(path, ps[i].0);
  }

  /** The override loop of `getAllowedFor`, returning from the first matching prefix. */
  method AllowedFor(c: Config, path: string) returns (r: seq<string>)
    ensures r == GetAllowedFor(c, path)
  {
    var ros := c.routeOverrides;
    for i := 0 to |ros|
      invariant forall j :: 0 <= j < i ==> !StartsWith(path, ros[j].prefix)
    {
      if StartsWith(path, ros[i].prefix) {
        FirstMatchAt(Prefixes(ros), path, i);
        return Dedup(LowerAll(ros[i].allowed));
      }
    }
    r := Dedup(LowerAll(c.defaultAllowed));
  }

  /** The built-in default list has no repeats and is already lower-case. */
  lemma DefaultIsLowercaseSet()
    ensures Dedup(DefaultMediaTypes) == DefaultMediaTypes
    ensures LowerAll(DefaultMediaTypes) == DefaultMediaTypes
  {
    DedupOfDistinct(DefaultMediaTypes);
    LowerOfLowercase(DefaultMediaTypes[0]);
  }

  /** Unconfigured, every path allows exactly `application/json`. */
  lemma DefaultAllowsOnlyJson(path: string)
    ensures GetAllowedFor(Configure(ContentTypeOptions(None, None)), path) == ["application/json"]
  {
    DefaultIsLowercaseSet();
    var c := Configure(ContentTypeOptions(None, None));
    assert c == Config([], DefaultMediaTypes);
    assert Prefixes([]) == [];
  }

  /** `contentType.split(';')[0].trim().toLowerCase()`. */
  function MediaType(contentType: string): (r: string)
    ensures !HasChar(r, ';')
    ensures forall i :: 0 <= i < |r| ==> !('A' <= r[i] <= 'Z')
  {
    var head := Split(contentType, ';')[0];
    NormalizedHasNoSeparator(head);
    Lower(Trim(head))
  }

  /** Trimming and lower-casing a text without ';' gives a lower-case text without ';'. */
  lemma NormalizedHasNoSeparator(p: string)
    requires !HasChar(p, ';')
    ensures !HasChar(Lower(Trim(p)), ';')
    ensures forall i :: 0 <= i < |Lower(Trim(p))| ==> !('A' <= Lower(Trim(p))[i] <= 'Z')
  {
    var t := Trim(p);
    var i: nat, j: nat :| i <= j <= |p| && t == p[i..j];
    var r := Lower(t);
    forall k | 0 <= k < |r|
      ensures r[k] != ';' && !('A' <= r[k] <= 'Z')
    {
      assert t[k] == p[i + k];
      assert r[k] == LowerChar(t[k]);
    }
  }

  /** Parameters after the first ';' never influence the media type. */
  lemma MediaTypeIgnoresParameters(t: string, params: string)
    requires !HasChar(t, ';')
    ensures MediaType(t + ";" + params) == MediaType(t)
  {
    var s := t + ";" + params;
    assert forall i :: 0 <= i < |t| ==> s[i] == t[i];
    assert s[|t|] == ';';
    assert IndexOf(s, ';') == |t|;
    SplitHead(s, ';');
    SplitHead(t, ';');
    assert s[..|t|] == t;
  }

  function BodyNotAccepted(m: string): (e: AppError)
    ensures e.status() == 415
  {
    Raise(UnsupportedMediaType, Some("HTTP method '" + m + "' does not accept a request body."))
  }

  function MissingContentType(): (e: AppError)
    ensures e.status() == 415
  {
    Raise(UnsupportedMediaType, Some("Missing Content-Type header."))
  }

  function NotAllowed(contentType: string, allowed: seq<string>): (e: AppError)
    ensures e.status() == 415
  {
    Raise(UnsupportedMediaType, Some("Content-Type '" + contentType +
      "' is not allowed on this endpoint. Expected one of: " + Join(Sort(allowed), ",") + "."))
  }

  /**
   * The gate's decision for a request. An array-valued `content-type`
   * on a body method reaches `split`, which is not defined on arrays.
   */
  function Gate(c: Config, verb: string, path: string, h: Headers): (o: Outcome)
    ensures o != Finished
    ensures o.Fail? ==> o.error.status() == 415
  {
    var m := Upper(verb);
    var contentType := Lookup(h, "content-type");
    if m in NoBodyMethods then
      if contentType != Missing then Fail(BodyNotAccepted(m)) else Continue
    else if m in BodyMethods then BodyGate(GetAllowedFor(c, path), contentType)
    else Continue
  }

  /** The check a POST, PUT or PATCH goes through against the path's allowed set. */
  function BodyGate(allowed: seq<string>, contentType: HeaderValue): (o: Outcome)
    ensures o != Finished
    ensures o.Fail? ==> o.error.status() == 415
    ensures o == Continue <==> contentType.Single? && contentType.s != "" && MediaType(contentType.s) in allowed
  {
    match contentType
    case Missing => Fail(MissingContentType())
    case Multi(_) => Crash("contentType.split is not a function")
    case Single(ct) =>
      if ct == "" then Fail(MissingContentType())
      else if MediaType(ct) in allowed then Continue
      else Fail(NotAllowed(ct, allowed))
  }

  /** A body-less method with any `content-type`, even an empty one, is rejected. */
  lemma BodylessMethodRejectsContentType(c: Config, verb: string, path: string, h: Headers)
    requires Upper(verb) in NoBodyMethods && Lookup(h, "content-type") != Missing
    ensures Gate(c, verb, path, h) == Fail(AppError(UnsupportedMediaType,
      "HTTP method '" + Upper(verb) + "' does not accept a request body."))
  {
  }

  /** A body-less method without `content-type` passes. */
  lemma BodylessMethodWithoutContentTypePasses(c: Config, verb: string, path: string, h: Headers)
    requires Upper(verb) in NoBodyMethods && Lookup(h, "content-type") == Missing
    ensures Gate(c, verb, path, h) == Continue
  {
  }

  /** POST, PUT and PATCH need a non-empty `content-type`. */
  lemma BodyMethodNeedsContentType(c: Config, verb: string, path: string, h: Headers)
    requires Upper(verb) in BodyMethods
    requires Lookup(h, "content-type") in {Missing, Single("")}
    ensures Gate(c, verb, path, h) == Fail(AppError(UnsupportedMediaType, "Missing Content-Type header."))
  {
  }

  /**
   * With a content type present, a body method is admitted exactly when the
   * media type is allowed for the path; the rejection lists the allowed set
   * sorted and joined with ','.
   */
  lemma {:induction false} BodyMethodAdmittedIff(c: Config, verb: string, path: string, h: Headers, ct: string)
    requires Upper(verb) in BodyMethods
    requires Lookup(h, "content-type") == Single(ct) && ct != ""
    ensures Gate(c, verb, path, h) == Continue <==> MediaType(ct) in GetAllowedFor(c, path)
    ensures Gate(c, verb, path, h) != Continue ==>
      Gate(c, verb, path, h) == Fail(NotAllowed(ct, GetAllowedFor(c, path))) &&
      Sorted(Sort(GetAllowedFor(c, path)))
  {
    var allowed := GetAllowedFor(c, path);
    assert Gate(c, verb, path, h) == BodyGate(allowed, Single(ct));
    SortIsSorted(allowed);
  }

  /** Every other method passes without checks. */
  lemma OtherMethodsPass(c: Config, verb: string, path: string, h: Headers)
    requires Upper(verb) !in NoBodyMethods && Upper(verb) !in BodyMethods
    ensures Gate(c, verb, path, h) == Continue
  {
  }

  /** The method is compared case-insensitively: `post` is treated as `POST`. */
  lemma MethodCaseIgnored(c: Config, verb: string, path: string, h: Headers)
    ensures Gate(c, verb, path, h) == Gate(c, Upper(verb), path, h)
  {
    UpperIdempotent(verb);
  }
}
