/**
 * The JavaScript string operations the request gates rely on, written out
 * over `string` (a sequence of Unicode scalar values): case mapping, trim,
 * prefix and substring tests, split and join, padding, slicing, decimal
 * rendering of numbers and the UTF-8 byte length used by `Buffer.byteLength`.
 */
module Text {

  // ---------------------------------------------------------------------
  // Case mapping (ASCII letters only)
  // ---------------------------------------------------------------------

  function LowerChar(c: char): char {
    if 'A' <= c <= 'Z' then (c as int + 32) as char else c
  }

  function UpperChar(c: char): char {
    if 'a' <= c <= 'z' then (c as int - 32) as char else c
  }

  /** `s.toLowerCase()` on ASCII letters. */
  function Lower(s: string): (r: string)
    ensures |r| == |s|
    ensures forall i :: 0 <= i < |s| ==> r[i] == LowerChar(s[i])
  {
    if s == [] then [] else [LowerChar(s[0])] + Lower(s[1..])
  }

  /** `s.toUpperCase()` on ASCII letters. */
  function Upper(s: string): (r: string)
    ensures |r| == |s|
    ensures forall i :: 0 <= i < |s| ==> r[i] == UpperChar(s[i])
  {
    if s == [] then [] else [UpperChar(s[0])] + Upper(s[1..])
  }

  lemma LowerIdempotent(s: string)
    ensures Lower(Lower(s)) == Lower(s)
  {
  }

  /** A string without upper-case ASCII letters is its own lower-case form. */
  lemma LowerOfLowercase(s: string)
    requires forall i :: 0 <= i < |s| ==> !('A' <= s[i] <= 'Z')
    ensures Lower(s) == s
  {
  }

  /** Upper-casing forgets any earlier lower-casing. */
  lemma UpperOfLower(s: string)
    ensures Upper(Lower(s)) == Upper(s)
  {
  }

  lemma UpperIdempotent(s: string)
    ensures Upper(Upper(s)) == Upper(s)
  {
  }

  // ---------------------------------------------------------------------
  // Prefix and substring tests
  // ---------------------------------------------------------------------

  /** `s.startsWith(prefix)`. */
  predicate StartsWith(s: string, prefix: string) {
    |prefix| <= |s| && s[..|prefix|] == prefix
  }

  /** True when `sub` occurs in `s` at position `i`. */
  predicate OccursAt(s: string, sub: string, i: nat) {
    i + |sub| <= |s| && s[i..i + |sub|] == sub
  }

  /** `s.includes(sub)`. */
  predicate Contains(s: string, sub: string) {
    exists i :: 0 <= i <= |s| - |sub| && OccursAt(s, sub, i)
  }

  /** `s.includes(c)` for a single character. */
  predicate HasChar(s: string, c: char) {
    exists i :: 0 <= i < |s| && s[i] == c
  }

  // ---------------------------------------------------------------------
  // Whitespace and String.prototype.trim
  // ---------------------------------------------------------------------

  /**
   * ECMAScript WhiteSpace and LineTerminator code points, the set that
   * `trim` removes: TAB, VT, FF, SP, NBSP, ZWNBSP, the Zs category, LF, CR,
   * LS and PS.
   */
  predicate IsJsSpace(c: char) {
    c == '\t' || c == '\n' || c == '\U{000B}' || c == '\U{000C}' || c == '\r' ||
    c == ' ' || c == '\U{00A0}' || c == '\U{1680}' || ('\U{2000}' <= c <= '\U{200A}') ||
    c == '\U{2028}' || c == '\U{2029}' || c == '\U{202F}' || c == '\U{205F}' ||
    c == '\U{3000}' || c == '\U{FEFF}'
  }

  function TrimStart(s: string): (r: string)
    ensures |r| <= |s| && r == s[|s| - |r|..]
    ensures r != [] ==> !IsJsSpace(r[0])
    ensures forall i :: 0 <= i < |s| - |r| ==> IsJsSpace(s[i])
  {
    if s != [] && IsJsSpace(s[0]) then TrimStart(s[1..]) else s
  }

  function TrimEnd(s: string): (r: string)
    ensures |r| <= |s| && r == s[..|r|]
    ensures r != [] ==> !IsJsSpace(r[|r| - 1])
    ensures forall i :: |r| <= i < |s| ==> IsJsSpace(s[i])
  {
    if s != [] && IsJsSpace(s[|s| - 1]) then TrimEnd(s[..|s| - 1]) else s
  }

  /** `s.trim()`: the longest slice of `s` with no JS space at either end. */
  function Trim(s: string): (r: string)
    ensures r != [] ==> !IsJsSpace(r[0]) && !IsJsSpace(r[|r| - 1])
    ensures exists i: nat, j: nat ::
      i <= j <= |s| && r == s[i..j] &&
      (forall k :: 0 <= k < i ==> IsJsSpace(s[k])) &&
      (forall k :: j <= k < |s| ==> IsJsSpace(s[k]))
  {
    var t := TrimStart(s);
    var r := TrimEnd(t);
    assert r == s[|s| - |t|..|s| - |t| + |r|];
    r
  }

  // ---------------------------------------------------------------------
  // Split, join and first-index search
  // ---------------------------------------------------------------------

  /** Index of the first `c` in `s`, or |s| when there is none. */
  function IndexOf(s: string, c: char): (k: nat)
    ensures k <= |s|
    ensures k < |s| ==> s[k] == c
    ensures forall i :: 0 <= i < k ==> s[i] != c
  {
    if s == [] then 0 else if s[0] == c then 0 else 1 + IndexOf(s[1..], c)
  }

  /** `s.split(c)` for a one-character separator. */
  function Split(s: string, c: char): (parts: seq<string>)
    ensures |parts| >= 1
    ensures forall p :: p in parts ==> !HasChar(p, c)
    decreases |s|
  {
    var k := IndexOf(s, c);
    if k == |s| then [s] else [s[..k]] + Split(s[k + 1..], c)
  }

  /** `parts.join(sep)`. */
  function Join(parts: seq<string>, sep: string): string {
    if parts == [] then ""
    else if |parts| == 1 then parts[0]
    else parts[0] + sep + Join(parts[1..], sep)
  }

  /** Splitting on `c` and joining with `c` gives the input back. */
  lemma {:induction false} JoinSplit(s: string, c: char)
    ensures Join(Split(s, c), [c]) == s
    decreases |s|
  {
    var k := IndexOf(s, c);
    if k < |s| {
      var tail := s[k + 1..];
      JoinSplit(tail, c);
      var parts := Split(tail, c);
      assert Split(s, c) == [s[..k]] + parts;
      assert s == s[..k] + [c] + tail;
    }
  }

  /** The first piece of a split is the text before the first separator. */
  lemma SplitHead(s: string, c: char)
    ensures Split(s, c)[0] == s[..IndexOf(s, c)]
  {
  }

  /** Joining all pieces after the first gives the text after the first separator. */
  lemma {:induction false} SplitRestJoin(s: string, c: char)
    requires IndexOf(s, c) < |s|
    ensures Join(Split(s, c)[1..], [c]) == s[IndexOf(s, c) + 1..]
  {
    var k := IndexOf(s, c);
    assert Split(s, c)[1..] == Split(s[k + 1..], c);
    JoinSplit(s[k + 1..], c);
  }

  // ---------------------------------------------------------------------
  // Padding and slicing
  // ---------------------------------------------------------------------

  function Repeat(c: char, n: nat): (r: string)
    ensures |r| == n && forall i :: 0 <= i < n ==> r[i] == c
  {
    if n == 0 then "" else [c] + Repeat(c, n - 1)
  }

  /** `s.padEnd(n, c)`. */
  function PadEnd(s: string, n: nat, c: char): (r: string)
    ensures |r| == if |s| >= n then |s| else n
    ensures r[..|s|] == s
    ensures forall i :: |s| <= i < |r| ==> r[i] == c
  {
    if |s| >= n then s else s + Repeat(c, n - |s|)
  }

  /** `s.padStart(n, c)`. */
  function PadStart(s: string, n: nat, c: char): (r: string)
    ensures |r| == if |s| >= n then |s| else n
    ensures r[|r| - |s|..] == s
    ensures forall i :: 0 <= i < |r| - |s| ==> r[i] == c
  {
    if |s| >= n then s else Repeat(c, n - |s|) + s
  }

  /** `s.slice(0, end)`: a negative `end` counts from the end of `s`. */
  function SliceTo(s: string, end: int): (r: string)
    ensures end >= 0 ==> r == s[..if end <= |s| then end else |s|]
    ensures end < 0 ==> r == s[..if |s| + end >= 0 then |s| + end else 0]
  {
    var e := if end < 0 then |s| + end else end;
    var e' := if e < 0 then 0 else if e > |s| then |s| else e;
    s[..e']
  }

  // ---------------------------------------------------------------------
  // Decimal rendering: String(n) for a non-negative integer
  // ---------------------------------------------------------------------

  predicate IsDigit(c: char) { '0' <= c <= '9' }

  function DigitChar(d: nat): (c: char)
    requires d < 10
    ensures IsDigit(c)
  {
    ('0' as int + d) as char
  }

  function DigitValue(c: char): nat
    requires IsDigit(c)
  {
    c as int - '0' as int
  }

  /** The value of a string of decimal digits. */
  function DecimalValue(s: string): nat
    requires forall i :: 0 <= i < |s| ==> IsDigit(s[i])
  {
    if s == [] then 0 else DecimalValue(s[..|s| - 1]) * 10 + DigitValue(s[|s| - 1])
  }

  /** `String(n)` for a natural number: its shortest decimal numeral. */
  function NatToString(n: nat): (r: string)
    ensures |r| >= 1
    ensures forall i :: 0 <= i < |r| ==> IsDigit(r[i])
    ensures |r| > 1 ==> r[0] != '0'
  {
    if n < 10 then [DigitChar(n)] else NatToString(n / 10) + [DigitChar(n % 10)]
  }

  /** The numeral reads back as the number it renders. */
  lemma {:induction false} NatToStringValue(n: nat)
    ensures DecimalValue(NatToString(n)) == n
  {
    if n >= 10 {
      NatToStringValue(n / 10);
      var r := NatToString(n);
      assert r[..|r| - 1] == NatToString(n / 10);
    }
  }

  /** Distinct numbers render as distinct numerals. */
  lemma NatToStringInjective(m: nat, n: nat)
    requires NatToString(m) == NatToString(n)
    ensures m == n
  {
    NatToStringValue(m);
    NatToStringValue(n);
  }

  /** The weight of the last digit of a fraction of one to three digits, in thousandths. */
  function FractionScale(digits: nat): nat {
    if digits == 1 then 100 else if digits == 2 then 10 else 1
  }

  /** A three-digit number is the sum of its weighted decimal digits. */
  lemma {:induction false} ThousandthsDigits(f: nat)
    requires f < 1000
    ensures f == f / 100 * 100 + f / 10 % 10 * 10 + f % 10
    ensures f / 100 < 10
  {
  }

  /** The value of a numeral of two or three digits, digit by digit. */
  lemma {:induction false} ShortNumeralValue(x: char, y: char, z: char)
    requires IsDigit(x) && IsDigit(y) && IsDigit(z)
    ensures DecimalValue([x]) == DigitValue(x)
    ensures DecimalValue([x, y]) == DigitValue(x) * 10 + DigitValue(y)
    ensures DecimalValue([x, y, z]) == (DigitValue(x) * 10 + DigitValue(y)) * 10 + DigitValue(z)
  {
    assert [x, y][..1] == [x];
    assert [x, y, z][..2] == [x, y];
  }

  /** The digits of a fraction of `f` thousandths, without trailing zeros. */
  function FractionDigits(f: nat): (d: string)
    requires 0 < f < 1000
    ensures 1 <= |d| <= 3 && d[|d| - 1] != '0'
    ensures forall i :: 0 <= i < |d| ==> IsDigit(d[i])
    ensures DecimalValue(d) * FractionScale(|d|) == f
  {
    ThousandthsDigits(f);
    var h, t, u := f / 100, f / 10 % 10, f % 10;
    var a, b, c := DigitChar(h), DigitChar(t), DigitChar(u);
    ShortNumeralValue(a, b, c);
    if t == 0 && u == 0 then [a]
    else if u == 0 then [a, b]
    else [a, b, c]
  }

  /**
   * `String(n / 1000)` for a natural `n`: JavaScript prints the quotient
   * without a fraction when it is whole and otherwise with the shortest
   * fraction, which for thousandths is at most three digits without
   * trailing zeros.
   */
  function ThousandthsToString(n: nat): (r: string)
    ensures n % 1000 == 0 ==> r == NatToString(n / 1000)
    ensures n % 1000 != 0 ==>
      var w := NatToString(n / 1000);
      |w| + 2 <= |r| <= |w| + 4 && r[..|w|] == w && r[|w|] == '.' &&
      (forall i :: |w| < i < |r| ==> IsDigit(r[i])) && r[|r| - 1] != '0' &&
      DecimalValue(r[|w| + 1..]) * FractionScale(|r| - |w| - 1) == n % 1000
  {
    var whole := NatToString(n / 1000);
    if n % 1000 == 0 then whole
    else
      var frac := FractionDigits(n % 1000);
      assert (whole + "." + frac)[|whole| + 1..] == frac;
      whole + "." + frac
  }

  // ---------------------------------------------------------------------
  // UTF-8 byte length: Buffer.byteLength(s)
  // ---------------------------------------------------------------------

  function Utf8Width(c: char): (w: nat)
    ensures 1 <= w <= 4
  {
    if c as int < 0x80 then 1
    else if c as int < 0x800 then 2
    else if c as int < 0x10000 then 3
    else 4
  }

  /** The number of bytes of the UTF-8 encoding of `s`. */
  function Utf8Length(s: string): (n: nat)
    ensures |s| <= n <= 4 * |s|
  {
    if s == [] then 0 else Utf8Width(s[0]) + Utf8Length(s[1..])
  }

  lemma {:induction false} Utf8LengthAppend(a: string, b: string)
    ensures Utf8Length(a + b) == Utf8Length(a) + Utf8Length(b)
  {
    if a != [] {
      assert (a + b)[1..] == a[1..] + b;
      Utf8LengthAppend(a[1..], b);
    } else {
      assert a + b == b;
    }
  }

  /** `s.length` in JavaScript: UTF-16 code units, two for a character beyond U+FFFF. */
  function Utf16Length(s: string): (n: nat)
    ensures |s| <= n <= 2 * |s|
  {
    if s == [] then 0 else (if s[0] as int < 0x10000 then 1 else 2) + Utf16Length(s[1..])
  }

  /** A string of basic-plane characters has as many code units as characters. */
  lemma {:induction false} Utf16LengthOfBasicPlane(s: string)
    requires forall i :: 0 <= i < |s| ==> s[i] as int < 0x10000
    ensures Utf16Length(s) == |s|
  {
    if s != [] {
      assert forall i :: 0 <= i < |s[1..]| ==> s[1..][i] == s[i + 1];
      Utf16LengthOfBasicPlane(s[1..]);
    }
  }
}
