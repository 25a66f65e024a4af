/**
 * The entity-id parameter pipe. A route parameter is accepted when it is a
 * string of exactly sixteen characters, all from the 62-character
 * alphabet the id generator uses; it is then passed on unchanged. Anything
 * else is refused with 422 and a message naming the first rule it breaks.
 */
module NanoidPipe {
  import opened Wrappers
  import opened Text
  import opened HttpErrors

  const Alphabet: string := "0123456789ABCDEFGHIJKLMNOPQRSTUVWXYZabcdefghijklmnopqrstuvwxyz"
  const IdLength: nat := 16

  /** What the pipe is handed: a string, or a value of another type. */
  datatype Param = StringParam(s: string) | OtherParam

  predicate AllInAlphabet(s: string) {
    forall i :: 0 <= i < |s| ==> s[i] in Alphabet
  }

  function NotAString(): AppError {
    Raise(UnprocessableContent, Some("Invalid id: value must be a string."))
  }

  function WrongLength(received: nat): AppError {
    Raise(UnprocessableContent, Some("Invalid id: expected exactly " + NatToString(IdLength) +
      " characters, received " + NatToString(received) + "."))
  }

  function NotBase62(): AppError {
    Raise(UnprocessableContent, Some("Invalid id: only base62 characters (A-Z, a-z, 0-9) are allowed."))
  }

  /** What `transform` returns or throws, rule by rule: type, then length in code units, then alphabet. */
  function Validate(p: Param): (r: Result<string, AppError>)
    ensures r.Err? ==> r.error.status() == 422
    ensures r.Ok? ==> p.StringParam? && r.value == p.s
  {
    if p.OtherParam? then Err(NotAString())
    else if Utf16Length(p.s) != IdLength then Err(WrongLength(Utf16Length(p.s)))
    else if !AllInAlphabet(p.s) then Err(NotBase62())
    else Ok(p.s)
  }

  /** `transform(value)`: the checks in order, then the character loop. */
  method Transform(p: Param) returns (r: Result<string, AppError>)
    ensures r == Validate(p)
  {
    if p.OtherParam? {
      return Err(NotAString());
    }
    var value := p.s;
    var length := Utf16Length(value);
    if length != IdLength {
      return Err(WrongLength(length));
    }
    for i := 0 to |value|
      invariant forall j :: 0 <= j < i ==> value[j] in Alphabet
    {
      if value[i] !in Alphabet {
        return Err(NotBase62());
      }
    }
    r := Ok(value);
  }

  /**
   * A parameter is accepted exactly when it is a string of sixteen UTF-16
   * code units, every character of which is in the alphabet.
   */
  lemma AcceptedIff(p: Param)
    ensures Validate(p).Ok? <==> p.StringParam? && Utf16Length(p.s) == IdLength && AllInAlphabet(p.s)
  {
  }

  /** Each rejection names the first rule broken: type, then length, then alphabet. */
  lemma RejectionReasons(p: Param)
    ensures p.OtherParam? ==> Validate(p) == Err(NotAString())
    ensures p.StringParam? && Utf16Length(p.s) != IdLength ==> Validate(p) == Err(WrongLength(Utf16Length(p.s)))
    ensures p.StringParam? && Utf16Length(p.s) == IdLength && !AllInAlphabet(p.s) ==> Validate(p) == Err(NotBase62())
  {
  }

  /** A basic-plane string is measured in characters, so sixteen characters of the alphabet are accepted. */
  lemma SixteenAlphabetCharsAccepted(s: string)
    requires |s| == IdLength && AllInAlphabet(s)
    requires forall i :: 0 <= i < |s| ==> s[i] as int < 0x10000
    ensures Validate(StringParam(s)) == Ok(s)
  {
    Utf16LengthOfBasicPlane(s);
  }

  /** An accepted id passes the pipe again unchanged. */
  lemma Idempotent(p: Param)
    requires Validate(p).Ok?
    ensures Validate(StringParam(Validate(p).value)) == Validate(p)
  {
  }
}
