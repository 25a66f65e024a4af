/**
 * The CORS gate. It checks the request's `Origin` against the origin policy
 * and refuses a disallowed origin with 403 before any header is set. It
 * then sets the CORS response headers one after another. A request whose
 * method is exactly `OPTIONS` (a preflight) is answered with 204 on the
 * spot; any other request continues down the chain.
 */
module Cors {
  import opened Wrappers
  import opened Text
  import opened HttpErrors
  import opened Http

  /** `opts.origin`: an array of origins or a single origin string. */
  datatype OriginPolicy = AnyOf(origins: seq<string>) | Exactly(origin: string)

  datatype CorsOptions = CorsOptions(
    origin: OriginPolicy,
    methods: seq<string>,
    allowedHeaders: seq<string>,
    exposedHeaders: seq<string>,
    credentials: Option<bool>,
    maxAge: Option<nat>)

  const AllowOrigin: string := "Access-Control-Allow-Origin"
  const AllowMethods: string := "Access-Control-Allow-Methods"
  const AllowHeaders: string := "Access-Control-Allow-Headers"
  const ExposeHeaders: string := "Access-Control-Expose-Headers"
  const MaxAge: string := "Access-Control-Max-Age"
  const AllowCredentials: string := "Access-Control-Allow-Credentials"

  /** The policy admits every origin: the string "*" or an array holding "*". */
  predicate Wildcard(p: OriginPolicy) {
    p == Exactly("*") || (p.AnyOf? && "*" in p.origins)
  }

  /** The origin as JavaScript truthiness sees it: present and non-empty. */
  predicate HasOrigin(origin: Option<string>) {
    origin.Some? && origin.value != ""
  }

  /** `isAllowedOrigin(origin)`. */
  function IsAllowedOrigin(p: OriginPolicy, origin: Option<string>): (ok: bool)
    ensures !HasOrigin(origin) ==> ok
    ensures HasOrigin(origin) && Wildcard(p) ==> ok
  {
    if !HasOrigin(origin) then true
    else if Wildcard(p) then true
    else match p
      case AnyOf(origins) => origin.value in origins
      case Exactly(o) => o == origin.value
  }

  /** Without a wildcard, an array policy is membership and a string policy is equality. */
  lemma AllowedOriginWithoutWildcard(p: OriginPolicy, o: string)
    requires o != "" && !Wildcard(p)
    ensures IsAllowedOrigin(p, Some(o)) <==> (if p.AnyOf? then o in p.origins else o == p.origin)
  {
  }

  /** An origin is refused only when it is present, non-empty and matched by no rule of the policy. */
  lemma RefusedOriginIsUnlisted(p: OriginPolicy, origin: Option<string>)
    requires !IsAllowedOrigin(p, origin)
    ensures HasOrigin(origin) && !Wildcard(p)
    ensures p.AnyOf? ==> origin.value !in p.origins
    ensures p.Exactly? ==> origin.value != p.origin
  {
  }

  function Refused(origin: string): AppError {
    Raise(Forbidden, Some("CORS origin '" + origin + "' not allowed."))
  }

  /** The response headers after the header-setting sequence, starting from `base`. */
  function CorsHeaders(opts: CorsOptions, origin: Option<string>, base: map<string, string>): map<string, string> {
    var h1 :=
      if HasOrigin(origin) then base[AllowOrigin := origin.value]
      else if Wildcard(opts.origin) then base[AllowOrigin := "*"]
      else base;
    var h2 := h1[AllowMethods := Join(opts.methods, ", ")]
                [AllowHeaders := Join(opts.allowedHeaders, ", ")]
                [ExposeHeaders := Join(opts.exposedHeaders, ", ")];
    var h3 := if opts.maxAge.Some? then h2[MaxAge := NatToString(opts.maxAge.value)] else h2;
    if opts.credentials == Some(true) then h3[AllowCredentials := "true"] else h3
  }

  /** A present origin is echoed back, even under a wildcard policy. */
  lemma AllowOriginEchoesOrigin(opts: CorsOptions, o: string, base: map<string, string>)
    requires o != ""
    ensures CorsHeaders(opts, Some(o), base)[AllowOrigin] == o
  {
  }

  /** Without an origin, `*` is sent only under a wildcard policy; otherwise the header is left as it was. */
  lemma AllowOriginWithoutOrigin(opts: CorsOptions, origin: Option<string>, base: map<string, string>)
    requires !HasOrigin(origin)
    ensures Wildcard(opts.origin) ==> CorsHeaders(opts, origin, base)[AllowOrigin] == "*"
    ensures !Wildcard(opts.origin) ==>
      (AllowOrigin in CorsHeaders(opts, origin, base) <==> AllowOrigin in base) &&
      (AllowOrigin in base ==> CorsHeaders(opts, origin, base)[AllowOrigin] == base[AllowOrigin])
  {
  }

  /** The three lists are always sent, joined with ", ". */
  lemma ListsAlwaysSent(opts: CorsOptions, origin: Option<string>, base: map<string, string>)
    ensures var h := CorsHeaders(opts, origin, base);
      h[AllowMethods] == Join(opts.methods, ", ") &&
      h[AllowHeaders] == Join(opts.allowedHeaders, ", ") &&
      h[ExposeHeaders] == Join(opts.exposedHeaders, ", ")
  {
  }

  /** `Access-Control-Max-Age` is added only when `maxAge` is defined, and credentials only when they are truthy. */
  lemma OptionalHeaders(opts: CorsOptions, origin: Option<string>, base: map<string, string>)
    requires MaxAge !in base && AllowCredentials !in base
    ensures var h := CorsHeaders(opts, origin, base);
      (MaxAge in h <==> opts.maxAge.Some?) &&
      (opts.maxAge.Some? ==> h[MaxAge] == NatToString(opts.maxAge.value)) &&
      (AllowCredentials in h <==> opts.credentials == Some(true)) &&
      (AllowCredentials in h ==> h[AllowCredentials] == "true")
  {
  }

  /** No header outside the six CORS names is touched. */
  lemma OtherHeadersKept(opts: CorsOptions, origin: Option<string>, base: map<string, string>, name: string)
    requires name !in {AllowOrigin, AllowMethods, AllowHeaders, ExposeHeaders, MaxAge, AllowCredentials}
    ensures (name in CorsHeaders(opts, origin, base) <==> name in base)
    ensures name in base ==> CorsHeaders(opts, origin, base)[name] == base[name]
  {
  }

  /**
   * The CORS middleware. The `origin` header is read as a string, which
   * is what the Node HTTP parser delivers for it.
   */
  method Handle(opts: CorsOptions, req: Request, res: Response) returns (o: Outcome)
    requires !Lookup(req.headers, "origin").Multi?
    modifies res
    ensures var origin := if Lookup(req.headers, "origin").Single? then Some(Lookup(req.headers, "origin").s) else None;
      (!IsAllowedOrigin(opts.origin, origin) ==> o == Fail(Refused(origin.value)) && unchanged(res)) &&
      (IsAllowedOrigin(opts.origin, origin) ==>
        res.headers == CorsHeaders(opts, origin, old(res.headers)) &&
        (req.verb == "OPTIONS" ==> o == Finished && res.statusCode == 204 && res.ended && res.headersSent) &&
        (req.verb != "OPTIONS" ==> o == Continue && res.statusCode == old(res.statusCode) &&
                                   res.ended == old(res.ended) && res.headersSent == old(res.headersSent)))
  {
    var value := Lookup(req.headers, "origin");
    var origin := if value.Single? then Some(value.s) else None;
    if !IsAllowedOrigin(opts.origin, origin) {
      return Fail(Refused(origin.value));
    }
    if HasOrigin(origin) {
      res.SetHeader(AllowOrigin, origin.value);
    } else if Wildcard(opts.origin) {
      res.SetHeader(AllowOrigin, "*");
    }
    res.SetHeader(AllowMethods, Join(opts.methods, ", "));
    res.SetHeader(AllowHeaders, Join(opts.allowedHeaders, ", "));
    res.SetHeader(ExposeHeaders, Join(opts.exposedHeaders, ", "));
    if opts.maxAge.Some? {
      res.SetHeader(MaxAge, NatToString(opts.maxAge.value));
    }
    if opts.credentials == Some(true) {
      res.SetHeader(AllowCredentials, "true");
    }
    if req.verb == "OPTIONS" {
      res.SendStatus(204);
      return Finished;
    }
    o := Continue;
  }
}
