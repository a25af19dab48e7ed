/**
 * Text helpers used by the paginator: the .NET notion of white space, decimal
 * rendering of integers (string interpolation of an `int`) and the text a
 * `StringBuilder` accumulates with `AppendLine`, each with the inverse that
 * reads it back.
 */
module Text {
  import opened Wrappers

  /** The line terminator `AppendLine` writes (`Environment.NewLine`, abstracted to one character). */
  const LineEnd: char := '\n'

  /** `char.IsWhiteSpace`: the Unicode space separators, U+0009..U+000D, U+0085 and the line and paragraph separators. */
  predicate IsWhiteSpace(c: char) {
    var u := c as int;
    (0x09 <= u <= 0x0D) || u == 0x20 || u == 0x85 || u == 0xA0 || u == 0x1680
    || (0x2000 <= u <= 0x200A) || u == 0x2028 || u == 0x2029 || u == 0x202F
    || u == 0x205F || u == 0x3000
  }

  /** Every character is white space (the empty string included). */
  predicate IsWhiteSpaceOnly(s: string) {
    forall i :: 0 <= i < |s| ==> IsWhiteSpace(s[i])
  }

  predicate IsDigit(c: char) {
    '0' <= c <= '9'
  }

  predicate AllDigits(s: string) {
    forall i :: 0 <= i < |s| ==> IsDigit(s[i])
  }

  function DigitChar(d: nat): (c: char)
    requires d < 10
    ensures IsDigit(c) && DigitValue(c) == d
  {
    ('0' as int + d) as char
  }

  function DigitValue(c: char): nat
    requires IsDigit(c)
  {
    c as int - '0' as int
  }

  /** Decimal digits of `n`, most significant first, with no leading zero. */
  function NatString(n: nat): (r: string)
    ensures |r| >= 1 && AllDigits(r)
    ensures r[0] == '0' <==> n == 0
  {
    if n < 10 then [DigitChar(n)] else NatString(n / 10) + [DigitChar(n % 10)]
  }

  /** An `int` as string interpolation writes it: a minus sign, then the digits of its magnitude. */
  function IntString(k: int): (r: string)
    ensures |r| >= 1
    ensures r[0] == '-' <==> k < 0
    ensures k < 0 ==> |r| >= 2 && AllDigits(r[1..])
    ensures k >= 0 ==> AllDigits(r)
    ensures k == 0 ==> r == "0"
    ensures k != 0 ==> r[if k < 0 then 1 else 0] != '0'
  {
    if k < 0 then "-" + NatString(-k) else NatString(k)
  }

  /** The value of a string of decimal digits. */
  function ParseNat(s: string): nat
    requires AllDigits(s)
  {
    if s == [] then 0 else ParseNat(s[..|s| - 1]) * 10 + DigitValue(s[|s| - 1])
  }

  lemma {:induction false} ParseNatString(n: nat)
    ensures ParseNat(NatString(n)) == n
  {
    if n >= 10 {
      var r := NatString(n / 10) + [DigitChar(n % 10)];
      assert r[..|r| - 1] == NatString(n / 10);
      ParseNatString(n / 10);
    }
  }

  /** Number of decimal digits at the end of `t`. */
  function TrailingDigits(t: string): (d: nat)
    ensures d <= |t|
    ensures AllDigits(t[|t| - d..])
  {
    if t == [] || !IsDigit(t[|t| - 1]) then 0
    else
      var d := TrailingDigits(t[..|t| - 1]);
      assert t[|t| - 1 - d..] == t[..|t| - 1][|t| - 1 - d..] + [t[|t| - 1]];
      1 + d
  }

  lemma {:induction false} TrailingDigitsOf(x: string, digits: string)
    requires AllDigits(digits)
    requires x != [] && !IsDigit(x[|x| - 1])
    ensures TrailingDigits(x + digits) == |digits|
    decreases |digits|
  {
    if digits == [] {
      assert x + digits == x;
    } else {
      var shorter := digits[..|digits| - 1];
      assert (x + digits)[..|x + digits| - 1] == x + shorter;
      TrailingDigitsOf(x, shorter);
    }
  }

  /** The text before a number and the number's value, with a minus sign just before the digits taken into account. */
  function Signed(before: string, magnitude: nat): (string, int) {
    if before != [] && before[|before| - 1] == '-' then (before[..|before| - 1], -(magnitude as int))
    else (before, magnitude)
  }

  /**
   * Reads a decimal `int` (an optional minus sign, then digits) off the end of
   * `t`; yields the text before it and its value.
   */
  function ParseIntSuffix(t: string): Option<(string, int)> {
    var d := TrailingDigits(t);
    if d == 0 then None else Some(Signed(t[..|t| - d], ParseNat(t[|t| - d..])))
  }

  lemma ParseIntSuffixOfDigits(x: string, digits: string)
    requires AllDigits(digits) && digits != []
    requires x != [] && !IsDigit(x[|x| - 1])
    ensures ParseIntSuffix(x + digits) == Some(Signed(x, ParseNat(digits)))
  {
    var t := x + digits;
    TrailingDigitsOf(x, digits);
    assert t[|t| - |digits|..] == digits;
    assert t[..|t| - |digits|] == x;
  }

  /** `ParseIntSuffix` undoes `IntString` when the number follows a space. */
  lemma ParseIntSuffixOf(x: string, k: int)
    requires x != [] && x[|x| - 1] == ' '
    ensures ParseIntSuffix(x + IntString(k)) == Some((x, k))
  {
    if k < 0 {
      ParseNegativeSuffix(x, k);
    } else {
      ParseNonNegativeSuffix(x, k);
    }
  }

  lemma ParseNonNegativeSuffix(x: string, k: int)
    requires x != [] && x[|x| - 1] == ' ' && k >= 0
    ensures ParseIntSuffix(x + IntString(k)) == Some((x, k))
  {
    var digits := NatString(k);
    assert IntString(k) == digits;
    ParseIntSuffixOfDigits(x, digits);
    ParseNatString(k);
  }

  lemma ParseNegativeSuffix(x: string, k: int)
    requires x != [] && x[|x| - 1] == ' ' && k < 0
    ensures ParseIntSuffix(x + IntString(k)) == Some((x, k))
  {
    var digits := NatString(-k);
    var x' := x + "-";
    assert x + IntString(k) == x' + digits by {
      assert IntString(k) == "-" + digits;
      Regroup3(x, "-", digits);
    }
    ParseIntSuffixOfDigits(x', digits);
    assert ParseNat(digits) == -k by {
      ParseNatString(-k);
    }
    assert Signed(x', -k) == (x, k) by {
      assert x'[|x'| - 1] == '-';
      assert x'[..|x'| - 1] == x;
    }
  }

  /** Re-associates a concatenation of three strings, so that a minus sign can be moved onto the text before the digits. */
  lemma Regroup3(a: string, b: string, c: string)
    ensures a + (b + c) == a + b + c
  {
  }

  /** The text `AppendLine` accumulates: each item followed by the line terminator. */
  function Lines(g: seq<string>): string {
    if g == [] then "" else g[0] + [LineEnd] + Lines(g[1..])
  }

  lemma {:induction false} LinesSnoc(g: seq<string>, x: string)
    ensures Lines(g + [x]) == Lines(g) + x + [LineEnd]
  {
    if g != [] {
      assert (g + [x])[1..] == g[1..] + [x];
      LinesSnoc(g[1..], x);
    } else {
      assert (g + [x])[1..] == [];
    }
  }

  /** Position of the first `c` in `t`, or `|t|` when there is none. */
  function IndexOf(t: string, c: char): (i: nat)
    ensures i <= |t|
    ensures i < |t| ==> t[i] == c
    ensures forall j :: 0 <= j < i ==> t[j] != c
  {
    if t == [] then 0
    else if t[0] == c then 0
    else 1 + IndexOf(t[1..], c)
  }

  /** Cuts text into the lines it holds, each terminated by `LineEnd`. */
  function SplitLines(t: string): seq<string>
    decreases |t|
  {
    if t == [] then []
    else
      var i := IndexOf(t, LineEnd);
      if i == |t| then [t] else [t[..i]] + SplitLines(t[i + 1..])
  }

  /** Text built with `AppendLine` cuts back into the items appended, when none of them holds a terminator. */
  lemma {:induction false} SplitLinesOfLines(g: seq<string>)
    requires forall k :: 0 <= k < |g| ==> LineEnd !in g[k]
    ensures SplitLines(Lines(g)) == g
  {
    if g != [] {
      var t := Lines(g);
      assert t == g[0] + [LineEnd] + Lines(g[1..]);
      assert t[|g[0]|] == LineEnd;
      var i := IndexOf(t, LineEnd);
      assert forall j :: 0 <= j < |g[0]| ==> t[j] == g[0][j];
      assert i == |g[0]|;
      assert t[..i] == g[0];
      assert t[i + 1..] == Lines(g[1..]);
      SplitLinesOfLines(g[1..]);
    }
  }
}
