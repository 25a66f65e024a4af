/**
 * The two security-header injectors. Both set the same bundle of ten
 * response headers. The function-style one first removes `X-Powered-By`
 * and leaves the documentation paths without the bundle; the class-style
 * one sets the bundle on every response and removes nothing.
 */
module SecurityHeaders {
  import opened Text
  import opened Http

  const CspDirectives: seq<string> := [
    "default-src 'self'",
    "img-src 'self' data:",
    "object-src 'none'",
    "frame-ancestors 'none'",
    "base-uri 'self'"]

  /** The Content-Security-Policy value: the five directives joined with "; ". */
  function Csp(): string {
    Join(CspDirectives, "; ")
  }

  /** The header bundle, in the order it is set. */
  function Bundle(): seq<(string, string)> {
    [("X-Frame-Options", "DENY"),
     ("X-Content-Type-Options", "nosniff"),
     ("Referrer-Policy", "strict-origin-when-cross-origin"),
     ("X-XSS-Protection", "0"),
     ("Strict-Transport-Security", "max-age=63072000; includeSubDomains; preload"),
     ("Cross-Origin-Opener-Policy", "same-origin"),
     ("Cross-Origin-Embedder-Policy", "require-corp"),
     ("Cross-Origin-Resource-Policy", "same-origin"),
     ("Permissions-Policy", "geolocation=(), microphone=(), camera=()"),
     ("Content-Security-Policy", Csp())]
  }

  function BundleNames(): set<string> {
    set i | 0 <= i < |Bundle()| :: Bundle()[i].0
  }

  /** The response headers once the bundle has been set on `base`. */
  function WithBundle(base: map<string, string>): map<string, string> {
    var b := Bundle();
    base[b[0].0 := b[0].1][b[1].0 := b[1].1][b[2].0 := b[2].1][b[3].0 := b[3].1][b[4].0 := b[4].1]
        [b[5].0 := b[5].1][b[6].0 := b[6].1][b[7].0 := b[7].1][b[8].0 := b[8].1][b[9].0 := b[9].1]
  }

  /** Every header of the bundle carries its listed value, whatever was there before. */
  lemma BundleIsSet(base: map<string, string>)
    ensures forall i :: 0 <= i < |Bundle()| ==> WithBundle(base)[Bundle()[i].0] == Bundle()[i].1
  {
  }

  /** No header outside the bundle is touched. */
  lemma OthersUntouched(base: map<string, string>, name: string)
    requires name !in BundleNames()
    ensures (name in WithBundle(base) <==> name in base)
    ensures name in base ==> WithBundle(base)[name] == base[name]
  {
    assert forall i :: 0 <= i < |Bundle()| ==> Bundle()[i].0 != name;
  }

  /** The documentation paths: `/docs…` and `/openapi.json…`. */
  predicate Exempt(path: string) {
    StartsWith(path, "/docs") || StartsWith(path, "/openapi.json")
  }

  /**
   * `securityHeaders`: always drop `X-Powered-By`, then set the bundle
   * unless `originalUrl ?? url` is a documentation path; `next()` either way.
   */
  method SecurityHeadersFn(req: Request, res: Response) returns (o: Outcome)
    modifies res
    ensures o == Continue
    ensures Exempt(req.FullPath()) ==> res.headers == old(res.headers) - {"X-Powered-By"}
    ensures !Exempt(req.FullPath()) ==> res.headers == WithBundle(old(res.headers) - {"X-Powered-By"})
    ensures res.headersSent == old(res.headersSent) && res.statusCode == old(res.statusCode) && res.ended == old(res.ended)
  {
    res.RemoveHeader("X-Powered-By");
    var path := req.FullPath();
    if StartsWith(path, "/docs") || StartsWith(path, "/openapi.json") {
      return Continue;
    }
    SetBundle(res);
    o := Continue;
  }

  /** `SecurityHeadersMiddleware.use`: the bundle on every response; `next()`. */
  method SecurityHeadersUse(res: Response) returns (o: Outcome)
    modifies res
    ensures o == Continue
    ensures res.headers == WithBundle(old(res.headers))
    ensures res.headersSent == old(res.headersSent) && res.statusCode == old(res.statusCode) && res.ended == old(res.ended)
  {
    SetBundle(res);
    o := Continue;
  }

  /** The ten `setHeader` calls shared by both injectors. */
  method SetBundle(res: Response)
    modifies res
    ensures res.headers == WithBundle(old(res.headers))
    ensures res.headersSent == old(res.headersSent) && res.statusCode == old(res.statusCode) && res.ended == old(res.ended)
  {
    res.SetHeader("X-Frame-Options", "DENY");
    res.SetHeader("X-Content-Type-Options", "nosniff");
    res.SetHeader("Referrer-Policy", "strict-origin-when-cross-origin");
    res.SetHeader("X-XSS-Protection", "0");
    res.SetHeader("Strict-Transport-Security", "max-age=63072000; includeSubDomains; preload");
    res.SetHeader("Cross-Origin-Opener-Policy", "same-origin");
    res.SetHeader("Cross-Origin-Embedder-Policy", "require-corp");
    res.SetHeader("Cross-Origin-Resource-Policy", "same-origin");
    res.SetHeader("Permissions-Policy", "geolocation=(), microphone=(), camera=()");
    res.SetHeader("Content-Security-Policy", Join(CspDirectives, "; "));
  }

  /** Off the documentation paths the two injectors differ only in `X-Powered-By`. */
  lemma VariantsDifferOnlyInPoweredBy(base: map<string, string>, name: string)
    requires name != "X-Powered-By"
    ensures (name in WithBundle(base - {"X-Powered-By"}) <==> name in WithBundle(base))
    ensures name in WithBundle(base) ==> WithBundle(base - {"X-Powered-By"})[name] == WithBundle(base)[name]
  {
  }

  /** The class-style injector leaves an existing `X-Powered-By` in place. */
  lemma ClassVariantKeepsPoweredBy(base: map<string, string>)
    requires "X-Powered-By" in base
    ensures "X-Powered-By" in WithBundle(base) && WithBundle(base)["X-Powered-By"] == base["X-Powered-By"]
  {
    OthersUntouched(base, "X-Powered-By");
  }
}
