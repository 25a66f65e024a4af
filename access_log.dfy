/**
 * The access-log line written when a response finishes, by the logging
 * middleware and by the logging interceptor: status, method, shortened
 * path and duration in fixed-width columns, at a level chosen from the
 * status code. The duration is the already formatted text.
 */
module AccessLog {
  import opened Text

  datatype Level = Error | Warn | Info | Debug

  /** `shortenPath(path, max)`: over-long paths keep `max - 1` characters and gain an ellipsis. */
  function ShortenPath(path: string, max: nat): (r: string)
    ensures |path| <= max ==> r == path
    ensures |path| > max && max >= 1 ==>
      |r| == max && r[..max - 1] == path[..max - 1] && r[max - 1] == '…'
  {
    if |path| > max then SliceTo(path, max - 1) + "…" else path
  }

  /** A shortened path never exceeds the limit, once the limit is at least one character. */
  lemma ShortenedFits(path: string, max: nat)
    requires max >= 1
    ensures |ShortenPath(path, max)| <= max
  {
  }

  /** Shortening twice with the same limit changes nothing more. */
  lemma ShortenIdempotent(path: string, max: nat)
    requires max >= 1
    ensures ShortenPath(ShortenPath(path, max), max) == ShortenPath(path, max)
  {
    ShortenedFits(path, max);
  }

  /** The middleware's level: error from 500, warn from 400, info below. */
  function MiddlewareLevel(code: nat): (l: Level)
    ensures l == Error <==> code >= 500
    ensures l == Warn <==> 400 <= code < 500
    ensures l == Info <==> code < 400
  {
    if code >= 500 then Error else if code >= 400 then Warn else Info
  }

  /** The interceptor's level: as the middleware's, but debug below 400. */
  function InterceptorLevel(code: nat): (l: Level)
    ensures l == Error <==> code >= 500
    ensures l == Warn <==> 400 <= code < 500
    ensures l == Debug <==> code < 400
  {
    if code >= 500 then Error else if code >= 400 then Warn else Debug
  }

  /** The two loggers agree on every failing status and differ exactly on the others. */
  lemma LevelsDifferOnlyBelow400(code: nat)
    ensures MiddlewareLevel(code) == InterceptorLevel(code) <==> code >= 400
    ensures code < 400 ==> MiddlewareLevel(code) == Info && InterceptorLevel(code) == Debug
  {
  }

  /** `${status} ${methodPadded} ${pathPadded} ${duration}ms`. */
  function Line(code: nat, verb: string, path: string, duration: string): string {
    PadEnd(NatToString(code), 3, ' ') + " " + PadEnd(verb, 7, ' ') + " " +
    PadEnd(ShortenPath(path, 30), 32, ' ') + " " + duration + "ms"
  }

  /** What is logged on `finish`: the level and the line. */
  datatype Entry = Entry(level: Level, line: string)

  /** The logging middleware's entry for a finished response. */
  function MiddlewareEntry(code: nat, verb: string, path: string, duration: string): Entry {
    Entry(MiddlewareLevel(code), Line(code, verb, path, duration))
  }

  /** The logging interceptor's entry for a finished response. */
  function InterceptorEntry(code: nat, verb: string, path: string, duration: string): Entry {
    Entry(InterceptorLevel(code), Line(code, verb, path, duration))
  }

  /**
   * For a three-digit status and a method of at most seven letters the
   * columns are fixed: status in 0..3, method in 4..11, the path column,
   * always 32 wide, in 12..44, and the duration from 45.
   */
  lemma LineColumns(code: nat, verb: string, path: string, duration: string)
    requires 100 <= code < 1000 && |verb| <= 7
    ensures var l := Line(code, verb, path, duration);
      |l| == 47 + |duration| &&
      l[..3] == NatToString(code) && l[3] == ' ' &&
      l[4..11] == PadEnd(verb, 7, ' ') && l[11] == ' ' &&
      l[12..44] == PadEnd(ShortenPath(path, 30), 32, ' ') && l[44] == ' ' &&
      l[45..45 + |duration|] == duration && l[45 + |duration|..] == "ms"
  {
    ThreeDigitStatus(code);
    ShortenedFits(path, 30);
  }

  /** A status code from 100 to 999 renders as exactly three digits. */
  lemma ThreeDigitStatus(code: nat)
    requires 100 <= code < 1000
    ensures |NatToString(code)| == 3
  {
    assert NatToString(code / 100) == [DigitChar(code / 100)];
    assert |NatToString(code / 10)| == 2;
  }
}
