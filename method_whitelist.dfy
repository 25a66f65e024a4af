/**
 * The method whitelist: the configured methods, upper-cased once into a
 * set, plus HEAD and OPTIONS, which are always admitted. Any other method
 * is refused with 405 and a message listing the configured set.
 */
module MethodWhitelist {
  import opened Wrappers
  import opened Text
  import opened Collections
  import opened HttpErrors
  import opened Http

  const AlwaysAllowed: set<string> := {"HEAD", "OPTIONS"}

  /** The gate as constructed: the allowed set in insertion order. */
  datatype Whitelist = Whitelist(allowed: seq<string>)

  function UpperAll(xs: seq<string>): (r: seq<string>)
    ensures |r| == |xs| && forall i :: 0 <= i < |xs| ==> r[i] == Upper(xs[i])
  {
    seq(|xs|, i requires 0 <= i < |xs| => Upper(xs[i]))
  }

  /** `new Set(opts.allowedMethods.map(m => m.toUpperCase()))`. */
  function Configure(allowedMethods: seq<string>): (w: Whitelist)
    ensures Distinct(w.allowed)
    ensures forall m :: m in w.allowed <==> exists k :: 0 <= k < |allowedMethods| && m == Upper(allowedMethods[k])
  {
    var up := UpperAll(allowedMethods);
    assert forall m :: m in up <==> exists k :: 0 <= k < |up| && up[k] == m;
    Whitelist(Dedup(up))
  }

  /** The list in the message: the set joined with ", ", or `null` when it is empty. */
  function AllowedList(w: Whitelist): string {
    if |w.allowed| > 0 then Join(w.allowed, ", ") else "null"
  }

  function NotAllowed(w: Whitelist, m: string): AppError {
    Raise(MethodNotAllowed, Some("HTTP method '" + m + "' is not allowed. Allowed methods: " + AllowedList(w) + "."))
  }

  /** The gate's decision for a request method. */
  function Check(w: Whitelist, verb: string): (o: Outcome)
    ensures o.Continue? || o.Fail?
    ensures o.Fail? ==> o.error.status() == 405
  {
    var m := Upper(verb);
    if m !in w.allowed && m !in AlwaysAllowed then Fail(NotAllowed(w, m)) else Continue
  }

  /** A method is admitted iff, upper-cased, it is one of the configured methods upper-cased, or HEAD or OPTIONS. */
  lemma AdmittedIff(allowedMethods: seq<string>, verb: string)
    ensures Check(Configure(allowedMethods), verb) == Continue <==>
      (exists k :: 0 <= k < |allowedMethods| && Upper(verb) == Upper(allowedMethods[k])) ||
      Upper(verb) == "HEAD" || Upper(verb) == "OPTIONS"
  {
  }

  /** HEAD and OPTIONS pass whatever the configuration, even an empty one. */
  lemma AlwaysAllowedPass(allowedMethods: seq<string>, verb: string)
    requires Upper(verb) in AlwaysAllowed
    ensures Check(Configure(allowedMethods), verb) == Continue
  {
  }

  /** With nothing configured, every other method is refused and the message says `null`. */
  lemma EmptyWhitelistRefuses(verb: string)
    requires Upper(verb) !in AlwaysAllowed
    ensures Check(Configure([]), verb) == Fail(AppError(MethodNotAllowed,
      "HTTP method '" + Upper(verb) + "' is not allowed. Allowed methods: null."))
  {
  }

  /** The letter case of the request method never matters. */
  lemma CaseInsensitive(w: Whitelist, verb: string)
    ensures Check(w, Lower(verb)) == Check(w, verb)
  {
    UpperOfLower(verb);
  }

  /** The letter case of the configured methods never matters either. */
  lemma ConfigCaseInsensitive(allowedMethods: seq<string>, verb: string)
    ensures Check(Configure(UpperAll(allowedMethods)), verb) == Check(Configure(allowedMethods), verb)
  {
    var up := UpperAll(allowedMethods);
    forall k | 0 <= k < |up| ensures Upper(up[k]) == Upper(allowedMethods[k]) {
      UpperIdempotent(allowedMethods[k]);
    }
    assert UpperAll(up) == up;
  }
}
