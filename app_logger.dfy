/**
 * The application logger. A minimum level, read once from `LOG_LEVEL`,
 * decides which calls write anything; errors go to standard error and
 * every other level to standard output, one newline-terminated line per
 * call. A line is a `[HH:mm:ss.SSS]` timestamp, the level label, the
 * message and the formatted metadata; an error line also carries the
 * formatted stack trace. Colouring is the identity here, and the wall
 * clock is an input. Both copies of the logger are this one class: they
 * differ only in the separator text of the stack header, which the system
 * copy carries in a mis-decoded form.
 */
module AppLogger {
  import opened Wrappers
  import opened Text

  datatype Level = ErrorLevel | WarnLevel | LogLevel | DebugLevel | VerboseLevel

  /** The level order, most severe first. */
  const LevelOrder: seq<string> := ["error", "warn", "log", "debug", "verbose"]

  function LevelName(l: Level): string {
    match l
    case ErrorLevel => "error"
    case WarnLevel => "warn"
    case LogLevel => "log"
    case DebugLevel => "debug"
    case VerboseLevel => "verbose"
  }

  /** `Array.prototype.indexOf` on a list of strings: the first position of `x`, or -1. */
  function Position(xs: seq<string>, x: string): (r: int)
    ensures -1 <= r < |xs|
    ensures r >= 0 ==> xs[r] == x && forall j :: 0 <= j < r ==> xs[j] != x
    ensures r == -1 <==> x !in xs
  {
    if xs == [] then -1
    else if xs[0] == x then 0
    else
      var r := Position(xs[1..], x);
      if r == -1 then -1 else r + 1
  }

  /** The rank of a level: its position in the level order. */
  function Rank(l: Level): (r: nat)
    ensures r < |LevelOrder| && LevelOrder[r] == LevelName(l)
  {
    match l
    case ErrorLevel => 0
    case WarnLevel => 1
    case LogLevel => 2
    case DebugLevel => 3
    case VerboseLevel => 4
  }

  lemma RankIsPosition(l: Level)
    ensures Position(LevelOrder, LevelName(l)) == Rank(l)
  {
    assert forall j :: 0 <= j < 5 ==> (LevelOrder[j] == LevelName(l) <==> j == Rank(l));
  }

  /** The index the constructor computes from `LOG_LEVEL`, which defaults to "log". */
  function CurrentLevelIndex(env: Option<string>): int {
    Position(LevelOrder, env.GetOr("log"))
  }

  /** `shouldLog(level)`. */
  predicate ShouldLog(l: Level, current: int) {
    Position(LevelOrder, LevelName(l)) <= current
  }

  /** With a configured level, exactly the levels at least as severe are written. */
  lemma ShouldLogIffAsSevere(l: Level, configured: Level)
    ensures ShouldLog(l, CurrentLevelIndex(Some(LevelName(configured)))) <==> Rank(l) <= Rank(configured)
  {
    RankIsPosition(l);
    RankIsPosition(configured);
  }

  /** Without `LOG_LEVEL`, errors, warnings and plain logs are written; debug and verbose are not. */
  lemma DefaultLevelIsLog(l: Level)
    ensures ShouldLog(l, CurrentLevelIndex(None)) <==> l in {ErrorLevel, WarnLevel, LogLevel}
  {
    RankIsPosition(l);
    RankIsPosition(LogLevel);
  }

  /** A `LOG_LEVEL` outside the five names silences every level, errors included. */
  lemma UnknownLevelSilencesAll(name: string, l: Level)
    requires name !in LevelOrder
    ensures !ShouldLog(l, CurrentLevelIndex(Some(name)))
  {
    RankIsPosition(l);
  }

  /** Metadata: none, a context name, or key/value pairs with values already rendered by `String`. */
  datatype Meta = NoMeta | Context(name: string) | Fields(pairs: seq<(string, string)>)

  function RenderPairs(pairs: seq<(string, string)>): seq<string> {
    seq(|pairs|, i requires 0 <= i < |pairs| => pairs[i].0 + ": " + pairs[i].1)
  }

  /** `formatMeta(meta)`. An empty context string is falsy and formats as nothing. */
  function FormatMeta(m: Meta): (r: string)
    ensures r == "" <==> m == NoMeta || m == Context("") || m == Fields([])
    ensures m.Context? && m.name != "" ==> r == " { context: " + m.name + " }"
    ensures m.Fields? && m.pairs != [] ==>
      |r| >= 5 && r[..3] == " { " && r[3..|r| - 2] == Join(RenderPairs(m.pairs), ", ") && r[|r| - 2..] == " }"
  {
    match m
    case NoMeta => ""
    case Context(name) => if name == "" then "" else " { context: " + name + " }"
    case Fields(pairs) => if pairs == [] then "" else " { " + Join(RenderPairs(pairs), ", ") + " }"
  }

  /** Non-empty metadata is always wrapped in braces after a space. */
  lemma FormatMetaBraces(m: Meta)
    requires FormatMeta(m) != ""
    ensures var r := FormatMeta(m); |r| >= 5 && r[..3] == " { " && r[|r| - 2..] == " }"
  {
  }

  /** A single pair formats as `{ k: v }`. */
  lemma FormatMetaSinglePair(k: string, v: string)
    ensures FormatMeta(Fields([(k, v)])) == " { " + k + ": " + v + " }"
  {
  }

  /** The separator of the stack header in the logger under src/logger. */
  const Arrow: string := " → "
  /** The same separator as the system copy holds it: its UTF-8 bytes read as Windows-1252. */
  const MisdecodedArrow: string := " \U{00E2}\U{2020}\U{2019} "

  /** The error name: the trimmed text before the first ':' (or the whole trimmed line), "Error" when blank. */
  function ErrorName(first: string): string {
    var name := if HasChar(first, ':') then Trim(Split(first, ':')[0]) else Trim(first);
    if name == "" then "Error" else name
  }

  /** The error message: the rest of the first line rejoined with ':' and trimmed, or nothing without a ':'. */
  function ErrorMessage(first: string): string {
    if HasChar(first, ':') then Trim(Join(Split(first, ':')[1..], ":")) else ""
  }

  /** The header built from the first line of a stack trace. */
  function StackHeader(first: string, sep: string): string {
    Upper(ErrorName(first)) + sep + (if ErrorMessage(first) == "" then "Unknown error" else ErrorMessage(first))
  }

  /** `formatStack(trace)`. */
  function FormatStack(trace: Option<string>, sep: string): (r: string)
    ensures trace.None? || trace == Some("") ==> r == ""
  {
    if trace.None? || trace.value == "" then ""
    else
      var lines := Split(trace.value, '\n');
      StackText(StackHeader(lines[0], sep), Join(lines[1..], "\n"))
  }

  /** A newline, the header, and the remaining lines on lines of their own when there are any. */
  function StackText(header: string, rest: string): string {
    "\n" + header + (if rest != "" then "\n" + rest else "")
  }

  lemma HasCharIndexOf(s: string, c: char)
    ensures HasChar(s, c) <==> IndexOf(s, c) < |s|
  {
  }

  /** In terms of positions, the name is the trimmed text before the first ':', or "Error" when that is blank. */
  lemma ErrorNameByPosition(first: string)
    ensures var n := Trim(first[..IndexOf(first, ':')]);
      ErrorName(first) == if n == "" then "Error" else n
  {
    var k := IndexOf(first, ':');
    HasCharIndexOf(first, ':');
    if k < |first| {
      SplitHead(first, ':');
    } else {
      assert first[..k] == first;
    }
  }

  /** In terms of positions, the message is the trimmed text after the first ':', or nothing without one. */
  lemma ErrorMessageByPosition(first: string)
    ensures var k := IndexOf(first, ':');
      ErrorMessage(first) == if k < |first| then Trim(first[k + 1..]) else ""
  {
    var k := IndexOf(first, ':');
    HasCharIndexOf(first, ':');
    if k < |first| {
      AfterFirstColon(first);
    }
  }

  /** The pieces after the first ':', rejoined, are the text after that ':'. */
  lemma AfterFirstColon(first: string)
    requires IndexOf(first, ':') < |first|
    ensures Join(Split(first, ':')[1..], ":") == first[IndexOf(first, ':') + 1..]
  {
    SplitRestJoin(first, ':');
    assert ":" == [':'];
  }

  /**
   * The layout in terms of positions: a newline, the header of the first
   * line, and the text after the first newline on a line of its own when
   * that text is not empty.
   */
  lemma FormatStackByPosition(trace: string, sep: string)
    requires trace != ""
    ensures var k := IndexOf(trace, '\n');
      var rest := if k < |trace| then trace[k + 1..] else "";
      FormatStack(Some(trace), sep) ==
        "\n" + StackHeader(trace[..k], sep) + (if rest != "" then "\n" + rest else "")
  {
    var k := IndexOf(trace, '\n');
    var lines := Split(trace, '\n');
    var rest := if k < |trace| then trace[k + 1..] else "";
    SplitHead(trace, '\n');
    RestOfLines(trace);
    assert FormatStack(Some(trace), sep) == StackText(StackHeader(lines[0], sep), Join(lines[1..], "\n"));
  }

  /** The lines after the first, rejoined, are the text after the first newline. */
  lemma RestOfLines(trace: string)
    ensures var k := IndexOf(trace, '\n');
      Join(Split(trace, '\n')[1..], "\n") == if k < |trace| then trace[k + 1..] else ""
  {
    var k := IndexOf(trace, '\n');
    var lines := Split(trace, '\n');
    if k < |trace| {
      SplitRestJoin(trace, '\n');
      assert "\n" == ['\n'];
    } else {
      SplitHead(trace, '\n');
      assert lines == [trace];
      assert lines[1..] == [];
    }
  }

  /** The two copies agree on an empty trace and otherwise differ: their separators differ after the error name. */
  lemma CopiesDifferOnlyInArrow(trace: Option<string>)
    ensures trace.None? || trace == Some("") ==> FormatStack(trace, Arrow) == FormatStack(trace, MisdecodedArrow) == ""
    ensures trace.Some? && trace.value != "" ==> FormatStack(trace, Arrow) != FormatStack(trace, MisdecodedArrow)
  {
    if trace.Some? && trace.value != "" {
      var lines := Split(trace.value, '\n');
      var rest := Join(lines[1..], "\n");
      var u := Upper(ErrorName(lines[0]));
      var m := if ErrorMessage(lines[0]) == "" then "Unknown error" else ErrorMessage(lines[0]);
      var tail := if rest != "" then "\n" + rest else "";
      assert StackHeader(lines[0], Arrow) == u + Arrow + m;
      assert StackHeader(lines[0], MisdecodedArrow) == u + MisdecodedArrow + m;
      DifferentSeparators(u, Arrow, MisdecodedArrow, m, tail);
    }
  }

  lemma DifferentSeparators(u: string, s1: string, s2: string, m: string, t: string)
    requires |s1| >= 2 && |s2| >= 2 && s1[1] != s2[1]
    ensures "\n" + (u + s1 + m) + t != "\n" + (u + s2 + m) + t
  {
    assert ("\n" + (u + s1 + m) + t)[|u| + 2] == s1[1];
    assert ("\n" + (u + s2 + m) + t)[|u| + 2] == s2[1];
  }

  /** The wall clock's local time of day. */
  datatype Clock = Clock(hours: nat, minutes: nat, seconds: nat, millis: nat)

  /** `n.toString().padStart(width, '0')`. */
  function Padded(x: nat, width: nat): string {
    PadStart(NatToString(x), width, '0')
  }

  /** `timestamp()`: `[HH:mm:ss.SSS]`. */
  function Timestamp(c: Clock): string {
    "[" + Padded(c.hours, 2) + ":" + Padded(c.minutes, 2) + ":" + Padded(c.seconds, 2) + "." +
    Padded(c.millis, 3) + "]"
  }

  predicate ValidClock(c: Clock) {
    c.hours < 24 && c.minutes < 60 && c.seconds < 60 && c.millis < 1000
  }

  lemma {:induction false} ZerosValue(k: nat)
    ensures DecimalValue(Repeat('0', k)) == 0
  {
    if k > 0 {
      var z := Repeat('0', k);
      assert z[..k - 1] == Repeat('0', k - 1);
      ZerosValue(k - 1);
    }
  }

  /** Leading zeros do not change a numeral's value. */
  lemma {:induction false} ZeroPaddedValue(z: string, s: string)
    requires forall i :: 0 <= i < |z| ==> z[i] == '0'
    requires forall i :: 0 <= i < |s| ==> IsDigit(s[i])
    ensures DecimalValue(z + s) == DecimalValue(s)
    decreases |s|
  {
    if s == [] {
      assert z + s == z;
      assert z == Repeat('0', |z|);
      ZerosValue(|z|);
    } else {
      var init := s[..|s| - 1];
      assert (z + s)[..|z + s| - 1] == z + init;
      ZeroPaddedValue(z, init);
    }
  }

  /** A numeral zero-padded to `n` places still reads as the number. */
  lemma PaddedNumeral(x: nat, n: nat)
    ensures forall i :: 0 <= i < |PadStart(NatToString(x), n, '0')| ==> IsDigit(PadStart(NatToString(x), n, '0')[i])
    ensures DecimalValue(PadStart(NatToString(x), n, '0')) == x
  {
    NatToStringValue(x);
    ZeroPadded(NatToString(x), n);
  }

  /** Padding a digit string with zeros keeps it a digit string with the same value. */
  lemma ZeroPadded(s: string, n: nat)
    requires forall i :: 0 <= i < |s| ==> IsDigit(s[i])
    ensures forall i :: 0 <= i < |PadStart(s, n, '0')| ==> IsDigit(PadStart(s, n, '0')[i])
    ensures DecimalValue(PadStart(s, n, '0')) == DecimalValue(s)
  {
    var p := PadStart(s, n, '0');
    if |s| < n {
      var z := Repeat('0', n - |s|);
      assert p == z + s;
      forall i | 0 <= i < |p| ensures IsDigit(p[i]) {
        if i < |z| { assert p[i] == '0'; } else { assert p[i] == s[i - |z|]; }
      }
      ZeroPaddedValue(z, s);
    } else {
      assert p == s;
    }
  }

  /** A numeral of a number below 10^n has at most n digits. */
  lemma NumeralWidth(x: nat)
    ensures x < 10 ==> |NatToString(x)| == 1
    ensures 10 <= x < 100 ==> |NatToString(x)| == 2
    ensures 100 <= x < 1000 ==> |NatToString(x)| == 3
  {
    if x >= 10 {
      assert NatToString(x) == NatToString(x / 10) + [DigitChar(x % 10)];
      if x >= 100 {
        assert NatToString(x / 10) == NatToString(x / 100) + [DigitChar(x / 10 % 10)];
      }
    }
  }

  /** One field of the timestamp: exactly `n` digits that read back as `x`. */
  lemma Field(x: nat, n: nat)
    requires n == 2 || n == 3
    requires n == 2 ==> x < 100
    requires n == 3 ==> x < 1000
    ensures |Padded(x, n)| == n
    ensures forall i :: 0 <= i < n ==> IsDigit(Padded(x, n)[i])
    ensures DecimalValue(Padded(x, n)) == x
  {
    NumeralWidth(x);
    PaddedNumeral(x, n);
  }

  /** Where the pieces of `[h:m:s.ms]` land. */
  lemma Layout(h: string, m: string, s: string, ms: string)
    requires |h| == 2 && |m| == 2 && |s| == 2 && |ms| == 3
    ensures var t := "[" + h + ":" + m + ":" + s + "." + ms + "]";
      |t| == 14 && t[0] == '[' && t[3] == ':' && t[6] == ':' && t[9] == '.' && t[13] == ']' &&
      t[1..3] == h && t[4..6] == m && t[7..9] == s && t[10..13] == ms
  {
  }

  /**
   * For a valid time of day the timestamp is fourteen characters wide, its
   * separators sit at fixed places, and each field reads back as its value.
   */
  lemma TimestampLayout(c: Clock)
    requires ValidClock(c)
    ensures var t := Timestamp(c);
      |t| == 14 && t[0] == '[' && t[3] == ':' && t[6] == ':' && t[9] == '.' && t[13] == ']' &&
      t[1..3] == Padded(c.hours, 2) && t[4..6] == Padded(c.minutes, 2) &&
      t[7..9] == Padded(c.seconds, 2) && t[10..13] == Padded(c.millis, 3)
    ensures DecimalValue(Padded(c.hours, 2)) == c.hours && DecimalValue(Padded(c.minutes, 2)) == c.minutes
    ensures DecimalValue(Padded(c.seconds, 2)) == c.seconds && DecimalValue(Padded(c.millis, 3)) == c.millis
  {
    Field(c.hours, 2);
    Field(c.minutes, 2);
    Field(c.seconds, 2);
    Field(c.millis, 3);
    Layout(Padded(c.hours, 2), Padded(c.minutes, 2), Padded(c.seconds, 2), Padded(c.millis, 3));
  }

  /** The label a level is printed with: `log` prints as INFO. */
  function Label(l: Level): string {
    match l
    case ErrorLevel => "ERROR"
    case WarnLevel => "WARN"
    case LogLevel => "INFO"
    case DebugLevel => "DEBUG"
    case VerboseLevel => "VERBOSE"
  }

  /** `format(level, message, meta)`. */
  function Format(levelLabel: string, message: string, meta: Meta, c: Clock): string {
    Timestamp(c) + " " + levelLabel + ": " + message + FormatMeta(meta)
  }

  /**
   * For a valid time a line opens with the fourteen-character timestamp,
   * then a space, the label, ": ", the message, and the metadata last.
   */
  lemma FormatLayout(levelLabel: string, message: string, meta: Meta, c: Clock)
    requires ValidClock(c)
    ensures var line := Format(levelLabel, message, meta, c);
      var k := 15 + |levelLabel|;
      |line| == k + 2 + |message| + |FormatMeta(meta)| &&
      line[..14] == Timestamp(c) && line[14] == ' ' && line[15..k] == levelLabel &&
      line[k..k + 2] == ": " && line[k + 2..k + 2 + |message|] == message &&
      line[k + 2 + |message|..] == FormatMeta(meta)
  {
    TimestampLayout(c);
    Pieces(Timestamp(c), levelLabel, message, FormatMeta(meta));
  }

  /** Where the pieces of `t + " " + l + ": " + m + f` land. */
  lemma Pieces(t: string, l: string, m: string, f: string)
    requires |t| == 14
    ensures var line := t + " " + l + ": " + m + f;
      var k := 15 + |l|;
      |line| == k + 2 + |m| + |f| &&
      line[..14] == t && line[14] == ' ' && line[15..k] == l &&
      line[k..k + 2] == ": " && line[k + 2..k + 2 + |m|] == m && line[k + 2 + |m|..] == f
  {
  }

  /** The logger and the two streams it writes. */
  class Logger {
    const currentLevelIndex: int
    /** The stack-header separator of this copy. */
    const arrow: string
    var stdout: seq<string>
    var stderr: seq<string>

    constructor (env: Option<string>, arrow: string)
      ensures currentLevelIndex == CurrentLevelIndex(env) && this.arrow == arrow
      ensures stdout == [] && stderr == []
    {
      currentLevelIndex := Position(LevelOrder, env.GetOr("log"));
      this.arrow := arrow;
      stdout := [];
      stderr := [];
    }

    /** The four standard-output levels share this shape. */
    method WriteOut(l: Level, message: string, meta: Meta, c: Clock)
      requires l != ErrorLevel
      modifies this
      ensures stderr == old(stderr)
      ensures ShouldLog(l, currentLevelIndex) ==> stdout == old(stdout) + [Format(Label(l), message, meta, c) + "\n"]
      ensures !ShouldLog(l, currentLevelIndex) ==> stdout == old(stdout)
    {
      if Position(LevelOrder, LevelName(l)) <= currentLevelIndex {
        stdout := stdout + [Format(Label(l), message, meta, c) + "\n"];
      }
    }

    method Log(message: string, meta: Meta, c: Clock)
      modifies this
      ensures stderr == old(stderr)
      ensures ShouldLog(LogLevel, currentLevelIndex) ==> stdout == old(stdout) + [Format("INFO", message, meta, c) + "\n"]
      ensures !ShouldLog(LogLevel, currentLevelIndex) ==> stdout == old(stdout)
    {
      WriteOut(LogLevel, message, meta, c);
    }

    method Warn(message: string, meta: Meta, c: Clock)
      modifies this
      ensures stderr == old(stderr)
      ensures ShouldLog(WarnLevel, currentLevelIndex) ==> stdout == old(stdout) + [Format("WARN", message, meta, c) + "\n"]
      ensures !ShouldLog(WarnLevel, currentLevelIndex) ==> stdout == old(stdout)
    {
      WriteOut(WarnLevel, message, meta, c);
    }

    method Debug(message: string, meta: Meta, c: Clock)
      modifies this
      ensures stderr == old(stderr)
      ensures ShouldLog(DebugLevel, currentLevelIndex) ==> stdout == old(stdout) + [Format("DEBUG", message, meta, c) + "\n"]
      ensures !ShouldLog(DebugLevel, currentLevelIndex) ==> stdout == old(stdout)
    {
      WriteOut(DebugLevel, message, meta, c);
    }

    method Verbose(message: string, meta: Meta, c: Clock)
      modifies this
      ensures stderr == old(stderr)
      ensures ShouldLog(VerboseLevel, currentLevelIndex) ==> stdout == old(stdout) + [Format("VERBOSE", message, meta, c) + "\n"]
      ensures !ShouldLog(VerboseLevel, currentLevelIndex) ==> stdout == old(stdout)
    {
      WriteOut(VerboseLevel, message, meta, c);
    }

    /** `error(message, trace, meta)`: the line and the formatted stack, on standard error. */
    method Error(message: string, trace: Option<string>, meta: Meta, c: Clock)
      modifies this
      ensures stdout == old(stdout)
      ensures ShouldLog(ErrorLevel, currentLevelIndex) ==>
        stderr == old(stderr) + [Format("ERROR", message, meta, c) + FormatStack(trace, arrow) + "\n"]
      ensures !ShouldLog(ErrorLevel, currentLevelIndex) ==> stderr == old(stderr)
    {
      if Position(LevelOrder, LevelName(ErrorLevel)) <= currentLevelIndex {
        stderr := stderr + [Format("ERROR", message, meta, c) + FormatStack(trace, arrow) + "\n"];
      }
    }
  }

  /** Every written line ends in a newline, whatever its level. */
  lemma LinesEndInNewline(levelLabel: string, message: string, meta: Meta, c: Clock, stack: string)
    ensures var line := Format(levelLabel, message, meta, c) + stack + "\n"; line[|line| - 1] == '\n'
  {
  }
}
