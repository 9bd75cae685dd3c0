/** The parts of the ECMAScript string library that the screens rely on:
    `String.prototype.trim`, `String.prototype.startsWith` and the decimal
    rendering of a non-negative integer inside a template literal. */
module JsText {

  /** The code points `trim` removes from both ends: the WhiteSpace and
      LineTerminator productions of ECMA-262 (sections 12.2 and 12.3). */
  predicate IsWhitespace(c: char) {
    || c == '\t' || c == '\n' || c == '\U{000B}' || c == '\U{000C}' || c == '\r'
    || c == ' ' || c == '\U{00A0}' || c == '\U{1680}'
    || ('\U{2000}' <= c <= '\U{200A}')
    || c == '\U{2028}' || c == '\U{2029}' || c == '\U{202F}' || c == '\U{205F}'
    || c == '\U{3000}' || c == '\U{FEFF}'
  }

  /** Every character of `s` is whitespace (vacuously true of ""). */
  predicate AllWhitespace(s: string) {
    forall i :: 0 <= i < |s| ==> IsWhitespace(s[i])
  }

  /** The length of the run of whitespace `s` starts with. */
  function LeadingWhitespace(s: string): (k: nat)
    ensures k <= |s| && AllWhitespace(s[..k])
    ensures k == |s| || !IsWhitespace(s[k])
  {
    if |s| > 0 && IsWhitespace(s[0]) then
      var k := 1 + LeadingWhitespace(s[1..]);
      assert s[..k] == [s[0]] + s[1..][..k - 1];
      k
    else
      0
  }

  /** Where the run of whitespace `s` ends with begins. */
  function TrailingWhitespace(s: string): (e: nat)
    ensures e <= |s| && AllWhitespace(s[e..])
    ensures e == 0 || !IsWhitespace(s[e - 1])
  {
    if |s| > 0 && IsWhitespace(s[|s| - 1]) then
      var e := TrailingWhitespace(s[..|s| - 1]);
      assert s[e..] == s[..|s| - 1][e..] + [s[|s| - 1]];
      e
    else
      |s|
  }

  /** `s.trim()`: `s` without its leading and its trailing run of
      whitespace. What is left neither starts nor ends with whitespace, and
      is empty exactly when `s` is all whitespace. */
  function Trim(s: string): (r: string)
    ensures var k := LeadingWhitespace(s);
      && k + |r| <= |s| && r == s[k..k + |r|]
      && AllWhitespace(s[k + |r|..])
    ensures r == [] || (!IsWhitespace(r[0]) && !IsWhitespace(r[|r| - 1]))
    ensures r == [] <==> AllWhitespace(s)
  {
    var k, e := LeadingWhitespace(s), TrailingWhitespace(s);
    WhitespaceRunsMeet(s);
    if k < e then s[k..e] else []
  }

  /** The two runs of whitespace overlap or touch exactly when `s` is all
      whitespace, and then the leading run is the whole of `s`. */
  lemma WhitespaceRunsMeet(s: string)
    ensures var k, e := LeadingWhitespace(s), TrailingWhitespace(s);
      && (e <= k <==> AllWhitespace(s))
      && (e <= k ==> k == |s|)
  {
    var k, e := LeadingWhitespace(s), TrailingWhitespace(s);
    if e <= k {
      RunsCoverAll(s);
    } else {
      assert !IsWhitespace(s[k]);
    }
  }

  /** When the runs overlap or touch, every character lies in one of them. */
  lemma RunsCoverAll(s: string)
    requires TrailingWhitespace(s) <= LeadingWhitespace(s)
    ensures AllWhitespace(s)
  {
    var k, e := LeadingWhitespace(s), TrailingWhitespace(s);
    forall i | 0 <= i < |s|
      ensures IsWhitespace(s[i])
    {
      if i < k {
        assert s[..k][i] == s[i] && IsWhitespace(s[..k][i]);
      }
      if e <= i {
        assert s[e..][i - e] == s[i] && IsWhitespace(s[e..][i - e]);
      }
    }
  }

  /** The test `s.trim() === ''` (equivalently, `!s.trim()`). */
  predicate IsBlank(s: string): (b: bool)
    ensures b <==> AllWhitespace(s)
  {
    Trim(s) == ""
  }

  /** `s.startsWith(prefix)`. */
  predicate StartsWith(s: string, prefix: string): (b: bool)
    ensures b <==> exists rest :: s == prefix + rest
  {
    assert prefix <= s ==> s == prefix + s[|prefix|..];
    prefix <= s
  }

  /** Two prefixes of one string are prefixes of each other. */
  lemma {:induction false} PrefixesAreNested(s: string, a: string, b: string)
    requires StartsWith(s, a) && StartsWith(s, b)
    ensures StartsWith(a, b) || StartsWith(b, a)
  {
    if |a| <= |b| {
      assert a == s[..|a|] == b[..|a|];
    } else {
      assert b == s[..|b|] == a[..|b|];
    }
  }

  /** The decimal digit character for `d`. */
  function DigitChar(d: nat): (c: char)
    requires d < 10
    ensures '0' <= c <= '9'
  {
    ('0' as int + d) as char
  }

  /** The value of a decimal digit character (0 for anything else). */
  function DigitValue(c: char): nat {
    if '0' <= c <= '9' then c as int - '0' as int else 0
  }

  /** `String(n)` for a non-negative integer `n`: its decimal digits, most
      significant first, without leading zeros. */
  function NatToString(n: nat): (s: string)
    ensures |s| > 0
    ensures forall i :: 0 <= i < |s| ==> '0' <= s[i] <= '9'
    ensures |s| > 1 ==> s[0] != '0'
  {
    if n < 10 then [DigitChar(n)] else NatToString(n / 10) + [DigitChar(n % 10)]
  }

  /** The number a string of decimal digits denotes. */
  function DecimalValue(s: string): nat {
    if s == [] then 0 else DecimalValue(s[..|s| - 1]) * 10 + DigitValue(s[|s| - 1])
  }

  /** Reading back the rendered digits gives the number again. */
  lemma {:induction false} DecimalRoundTrip(n: nat)
    ensures DecimalValue(NatToString(n)) == n
  {
    var s := NatToString(n);
    if n >= 10 {
      assert s[..|s| - 1] == NatToString(n / 10);
      DecimalRoundTrip(n / 10);
    }
  }
}
