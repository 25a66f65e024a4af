/**
 * The exception filters: what reaches the client, and what is logged, when
 * a handler throws. Three filters are modelled: the plain global filter,
 * the not-found filter, and the structured global filter, two copies of
 * which live in the errors and core folders with the same behaviour. The
 * clock is an input: `now` in milliseconds for the plain filters and the
 * ISO-8601 text for the structured one.
 */
module ExceptionFilters {
  import opened Wrappers
  import opened Text
  import opened HttpErrors

  const GenericMessage: string := "Internal server error"

  /** `ErrorResponseDto`: status, message and the time it was built. */
  datatype ErrorResponse = ErrorResponse(status: nat, message: string, timestamp: int)

  /** What a plain filter does: the response status, the JSON body, and the message it logs, if any. */
  datatype Reply = Reply(httpStatus: nat, body: ErrorResponse, logged: Option<string>)

  /**
   * The plain global filter. An HttpException is answered with its own
   * status and message and is not logged; any other error becomes a 500
   * with the generic message, and the generic message is what is logged.
   */
  function CommonCatch(t: Thrown, now: int): (r: Reply)
    ensures r.httpStatus == r.body.status && r.body.timestamp == now
    ensures t.HttpEx? ==> r.httpStatus == t.status && r.body.message == t.message && r.logged.None?
    ensures !t.HttpEx? ==> r.httpStatus == 500 && r.body.message == GenericMessage
    ensures r.logged.Some? <==> t.PlainError?
    ensures r.logged.Some? ==> r.logged.value == GenericMessage
  {
    var status := if t.HttpEx? then t.status else 500;
    var message := if t.HttpEx? then t.message else GenericMessage;
    Reply(status, ErrorResponse(status, message, now), if t.PlainError? then Some(message) else None)
  }

  /** The plain filter tells the client nothing about an error that is not an HttpException. */
  lemma CommonHidesRuntimeErrors(t1: Thrown, t2: Thrown, now: int)
    requires !t1.HttpEx? && !t2.HttpEx?
    ensures CommonCatch(t1, now).body == CommonCatch(t2, now).body
    ensures CommonCatch(t1, now).httpStatus == CommonCatch(t2, now).httpStatus
  {
  }

  const NotFoundPrefix: string := "Route not found — No route matches "

  function NotFoundMessage(verb: string, originalUrl: string): string {
    NotFoundPrefix + verb + " " + originalUrl + "."
  }

  /** The not-found filter: 404, with the method and original URL in the message, logged as sent. */
  function NotFoundCatch(verb: string, originalUrl: string, now: int): (r: Reply)
    ensures r.httpStatus == 404 && r.body.status == 404 && r.body.timestamp == now
    ensures r.logged == Some(r.body.message)
    ensures StartsWith(r.body.message, NotFoundPrefix)
    ensures |r.body.message| == |NotFoundPrefix| + |verb| + |originalUrl| + 2
    ensures r.body.message[|NotFoundPrefix|..] == verb + " " + originalUrl + "."
  {
    var message := NotFoundMessage(verb, originalUrl);
    assert message[..|NotFoundPrefix|] == NotFoundPrefix;
    Reply(404, ErrorResponse(404, message, now), Some(message))
  }

  /**
   * The not-found message names the route: for methods without spaces,
   * equal messages mean the same method and the same URL.
   */
  lemma NotFoundMessageNamesRoute(v1: string, u1: string, v2: string, u2: string)
    requires !HasChar(v1, ' ') && !HasChar(v2, ' ')
    requires NotFoundMessage(v1, u1) == NotFoundMessage(v2, u2)
    ensures v1 == v2 && u1 == u2
  {
    var p := |NotFoundPrefix|;
    var x1 := v1 + " " + u1 + ".";
    var x2 := v2 + " " + u2 + ".";
    assert NotFoundMessage(v1, u1) == NotFoundPrefix + x1;
    assert NotFoundMessage(v2, u2) == NotFoundPrefix + x2;
    assert x1 == (NotFoundPrefix + x1)[p..];
    assert x2 == (NotFoundPrefix + x2)[p..];
    FirstSpaceEndsWord(v1, u1 + ".");
    FirstSpaceEndsWord(v2, u2 + ".");
    assert v1 + " " + (u1 + ".") == x1 && v2 + " " + (u2 + ".") == x2;
    assert |v1| == |v2|;
    assert v1 == x1[..|v1|];
    assert v2 == x2[..|v2|];
    assert u1 == x1[|v1| + 1..|x1| - 1];
    assert u2 == x2[|v2| + 1..|x2| - 1];
  }

  /** In a word without spaces followed by a space, the first space is the one after the word. */
  lemma FirstSpaceEndsWord(word: string, rest: string)
    requires !HasChar(word, ' ')
    ensures IndexOf(word + " " + rest, ' ') == |word|
  {
    var s := word + " " + rest;
    assert s[|word|] == ' ';
    assert forall i :: 0 <= i < |word| ==> s[i] == word[i];
  }

  /** The structured filter's JSON body. */
  datatype JsonBody = JsonBody(statusCode: nat, timestamp: string, path: string, message: string)

  /** The structured filter's `logger.error(message, stack, metadata)` call; of the metadata only the status is modelled. */
  datatype LogCall = LogCall(message: string, stack: Option<string>, status: nat)

  datatype Report = Report(httpStatus: nat, body: JsonBody, log: LogCall)

  /**
   * The structured global filter, as its code reads. An HttpException
   * keeps its status and message; a runtime error becomes a 500 that
   * carries the error's own message; any other thrown value becomes a 500
   * whose message is its text. The stack is logged when there is one.
   */
  function StructuredCatch(t: Thrown, url: string, isoNow: string): (r: Report)
    ensures r.httpStatus == r.body.statusCode && r.log.status == r.httpStatus
    ensures r.log.message == r.body.message && r.body.path == url && r.body.timestamp == isoNow
    ensures t.HttpEx? ==> r.httpStatus == t.status && r.body.message == t.message && r.log.stack == Some(t.stack)
    ensures t.PlainError? ==> r.httpStatus == 500 && r.body.message == t.message && r.log.stack == Some(t.stack)
    ensures t.NonError? ==> r.httpStatus == 500 && r.body.message == t.text && r.log.stack.None?
  {
    var status := if t.HttpEx? then t.status else 500;
    var message := match t
      case HttpEx(_, m, _) => m
      case PlainError(m, _) => m
      case NonError(text) => text;
    var stack := match t
      case HttpEx(_, _, s) => Some(s)
      case PlainError(_, s) => Some(s)
      case NonError(_) => None;
    Report(status, JsonBody(status, isoNow, url, message), LogCall(message, stack, status))
  }

  /**
   * As written, a runtime error's own message reaches the client, though
   * the filter's documentation promises the generic message for it.
   */
  lemma StructuredExposesRuntimeMessage(url: string, isoNow: string)
    ensures StructuredCatch(PlainError("connect ECONNREFUSED 10.0.0.5:5432", "at Socket"), url, isoNow).body.message
      != GenericMessage
  {
    var m := "connect ECONNREFUSED 10.0.0.5:5432";
    assert m[0] != GenericMessage[0];
  }

  /**
   * The structured filter as its documentation describes it: a runtime
   * error or other thrown value is answered with the generic message, and
   * the error's own message and stack go only to the log.
   */
  function StructuredCatchAsDocumented(t: Thrown, url: string, isoNow: string): (r: Report)
    ensures r.httpStatus == r.body.statusCode && r.log.status == r.httpStatus
    ensures r.body.path == url && r.body.timestamp == isoNow
    ensures t.HttpEx? ==> r.httpStatus == t.status && r.body.message == t.message && r.log.message == t.message
    ensures !t.HttpEx? ==> r.httpStatus == 500 && r.body.message == GenericMessage
    ensures r.log == StructuredCatch(t, url, isoNow).log
  {
    var asWritten := StructuredCatch(t, url, isoNow);
    var message := if t.HttpEx? then t.message else GenericMessage;
    Report(asWritten.httpStatus, JsonBody(asWritten.httpStatus, isoNow, url, message), asWritten.log)
  }

  /** The documented filter's response does not depend on which runtime error was thrown. */
  lemma DocumentedHidesRuntimeErrors(t1: Thrown, t2: Thrown, url: string, isoNow: string)
    requires !t1.HttpEx? && !t2.HttpEx?
    ensures StructuredCatchAsDocumented(t1, url, isoNow).body == StructuredCatchAsDocumented(t2, url, isoNow).body
  {
  }

  /** The documented filter's client message agrees with the plain filter's on every thrown value. */
  lemma DocumentedAgreesWithCommon(t: Thrown, url: string, isoNow: string, now: int)
    ensures StructuredCatchAsDocumented(t, url, isoNow).body.message == CommonCatch(t, now).body.message
    ensures StructuredCatchAsDocumented(t, url, isoNow).httpStatus == CommonCatch(t, now).httpStatus
  {
  }

  /** For HttpExceptions, all the global filters answer alike: same status, same message. */
  lemma FiltersAgreeOnHttpExceptions(t: Thrown, url: string, isoNow: string, now: int)
    requires t.HttpEx?
    ensures StructuredCatch(t, url, isoNow).httpStatus == CommonCatch(t, now).httpStatus == t.status
    ensures StructuredCatch(t, url, isoNow).body.message == CommonCatch(t, now).body.message == t.message
  {
  }

  /** An application error thrown from a gate is answered with its class's status and its message. */
  lemma AppErrorAnswered(e: AppError, stack: string, url: string, isoNow: string)
    ensures StructuredCatch(AsThrown(e, stack), url, isoNow).httpStatus == Status(e.cls)
    ensures StructuredCatch(AsThrown(e, stack), url, isoNow).body.message == e.message
    ensures StructuredCatchAsDocumented(AsThrown(e, stack), url, isoNow).httpStatus == Status(e.cls)
    ensures StructuredCatchAsDocumented(AsThrown(e, stack), url, isoNow).body.message == e.message
  {
  }
}
