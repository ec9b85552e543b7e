/** String helpers shared by the backend (Python) and the frontend (TypeScript)
    models: whitespace stripping, joining, ASCII lower-casing, decimal
    rendering and parsing of integers, and UTF-16 length. */
module Strings {
  import opened Wrappers

  /** Python's `str.isspace()` on one character. */
  predicate PyIsSpace(c: char) {
    c == ' ' || ('\t' <= c <= '\r') || ('\U{1C}' <= c <= '\U{1F}') || c == '\U{85}' || c == '\U{A0}'
    || c == '\U{1680}' || ('\U{2000}' <= c <= '\U{200A}') || c == '\U{2028}' || c == '\U{2029}'
    || c == '\U{202F}' || c == '\U{205F}' || c == '\U{3000}'
  }

  /** The characters JavaScript's `String.prototype.trim()` removes
      (ECMAScript WhiteSpace and LineTerminator). */
  predicate JsIsSpace(c: char) {
    c == ' ' || ('\t' <= c <= '\r') || c == '\U{A0}' || c == '\U{1680}'
    || ('\U{2000}' <= c <= '\U{200A}') || c == '\U{2028}' || c == '\U{2029}'
    || c == '\U{202F}' || c == '\U{205F}' || c == '\U{3000}' || c == '\U{FEFF}'
  }

  /** Which language's notion of whitespace a strip uses. */
  datatype Flavour = Python | JavaScript

  predicate IsSpace(ws: Flavour, c: char) {
    match ws
    case Python => PyIsSpace(c)
    case JavaScript => JsIsSpace(c)
  }

  predicate AllSatisfy(s: string, ws: Flavour) {
    forall k :: 0 <= k < |s| ==> IsSpace(ws, s[k])
  }

  /** The length of the longest prefix of `s` made of `ws` whitespace. */
  function LeadingCount(s: string, ws: Flavour): (n: nat)
    ensures n <= |s|
    decreases |s|
  {
    if |s| > 0 && IsSpace(ws, s[0]) then 1 + LeadingCount(s[1..], ws) else 0
  }

  /** The leading run is whitespace and maximal. */
  lemma {:induction false} LeadingRun(s: string, ws: Flavour)
    ensures var n := LeadingCount(s, ws);
      AllSatisfy(s[..n], ws) && (n == |s| || !IsSpace(ws, s[n]))
    decreases |s|
  {
    if |s| > 0 && IsSpace(ws, s[0]) {
      LeadingRun(s[1..], ws);
      var n := LeadingCount(s, ws);
      assert s[..n] == [s[0]] + s[1..][..n - 1];
    }
  }

  /** The length of the longest suffix of `s` made of `ws` whitespace. */
  function TrailingCount(s: string, ws: Flavour): (n: nat)
    ensures n <= |s|
    decreases |s|
  {
    if |s| > 0 && IsSpace(ws, s[|s| - 1]) then 1 + TrailingCount(s[..|s| - 1], ws) else 0
  }

  /** The trailing run is whitespace and maximal. */
  lemma {:induction false} TrailingRun(s: string, ws: Flavour)
    ensures var n := TrailingCount(s, ws);
      AllSatisfy(s[|s| - n..], ws) && (n == |s| || !IsSpace(ws, s[|s| - 1 - n]))
    decreases |s|
  {
    if |s| > 0 && IsSpace(ws, s[|s| - 1]) {
      var s' := s[..|s| - 1];
      TrailingRun(s', ws);
      var n' := TrailingCount(s', ws);
      assert TrailingCount(s, ws) == n' + 1;
      forall k | |s| - (n' + 1) <= k < |s|
        ensures IsSpace(ws, s[k])
      {
        if k < |s| - 1 {
          assert s'[|s'| - n'..][k - (|s'| - n')] == s[k];
        }
      }
      if n' < |s'| {
        assert s[|s| - 1 - (n' + 1)] == s'[|s'| - 1 - n'];
      }
    }
  }

  /** Removes leading and trailing `ws` whitespace: what is left is the slice
      between the two whitespace runs. */
  function StripWith(s: string, ws: Flavour): (r: string)
    ensures |r| <= |s|
  {
    var i, j := LeadingCount(s, ws), |s| - TrailingCount(s, ws);
    if i < j then s[i..j] else ""
  }

  /** The stripped string neither starts nor ends with whitespace. */
  lemma StripEnds(s: string, ws: Flavour)
    ensures var r := StripWith(s, ws); r == [] || (!IsSpace(ws, r[0]) && !IsSpace(ws, r[|r| - 1]))
  {
    LeadingRun(s, ws);
    TrailingRun(s, ws);
  }

  /** Stripping yields the empty string exactly when the input is all
      whitespace. */
  lemma StripEmpty(s: string, ws: Flavour)
    ensures StripWith(s, ws) == [] <==> AllSatisfy(s, ws)
  {
    LeadingRun(s, ws);
    TrailingRun(s, ws);
    var i, j := LeadingCount(s, ws), |s| - TrailingCount(s, ws);
    if i >= j {
      forall k | 0 <= k < |s|
        ensures IsSpace(ws, s[k])
      {
        assert k < i ==> s[..i][k] == s[k];
        assert k >= j ==> s[j..][k - j] == s[k];
      }
    }
  }

  /** Python's `str.strip()` with no argument. */
  function PyStrip(s: string): string {
    StripWith(s, Python)
  }

  /** JavaScript's `String.prototype.trim()`. */
  function JsTrim(s: string): string {
    StripWith(s, JavaScript)
  }

  lemma {:induction false} LeadingCountPrefix(pre: string, core: string, ws: Flavour)
    requires AllSatisfy(pre, ws)
    requires core != [] && !IsSpace(ws, core[0])
    ensures LeadingCount(pre + core, ws) == |pre|
    decreases |pre|
  {
    if pre == [] {
      assert pre + core == core;
    } else {
      assert (pre + core)[1..] == pre[1..] + core;
      LeadingCountPrefix(pre[1..], core, ws);
    }
  }

  lemma {:induction false} TrailingCountSuffix(core: string, post: string, ws: Flavour)
    requires AllSatisfy(post, ws)
    requires core != [] && !IsSpace(ws, core[|core| - 1])
    ensures TrailingCount(core + post, ws) == |post|
    decreases |post|
  {
    if post == [] {
      assert core + post == core;
    } else {
      var n := |core + post|;
      assert (core + post)[..n - 1] == core + post[..|post| - 1];
      TrailingCountSuffix(core, post[..|post| - 1], ws);
    }
  }

  /** Stripping a string framed by whitespace gives back the frame's content
      when that content starts and ends with a non-whitespace character. */
  lemma StripFramed(pre: string, core: string, post: string, ws: Flavour)
    requires AllSatisfy(pre, ws) && AllSatisfy(post, ws)
    requires core != [] && !IsSpace(ws, core[0]) && !IsSpace(ws, core[|core| - 1])
    ensures StripWith(pre + core + post, ws) == core
  {
    var s := pre + core + post;
    assert s == pre + (core + post) && s == (pre + core) + post;
    LeadingCountPrefix(pre, core + post, ws);
    TrailingCountSuffix(pre + core, post, ws);
    assert s[|pre|..|pre| + |core|] == core;
  }

  /** Python's `sep.join(items)` and JavaScript's `items.join(sep)`. */
  function Join(items: seq<string>, sep: string): string
    decreases |items|
  {
    if |items| == 0 then ""
    else if |items| == 1 then items[0]
    else Join(items[..|items| - 1], sep) + sep + items[|items| - 1]
  }

  /** Joining is a homomorphism from sequence concatenation: the items appear
      in order, separated by exactly one separator. */
  lemma {:induction false} JoinAppend(a: seq<string>, b: seq<string>, sep: string)
    requires a != [] && b != []
    ensures Join(a + b, sep) == Join(a, sep) + sep + Join(b, sep)
    decreases |b|
  {
    if |b| == 1 {
      assert (a + b)[..|a + b| - 1] == a;
    } else {
      var b' := b[..|b| - 1];
      assert (a + b)[..|a + b| - 1] == a + b';
      JoinAppend(a, b', sep);
    }
  }

  /** ASCII lower-casing of one character; other characters are unchanged. */
  function LowerChar(c: char): char {
    if 'A' <= c <= 'Z' then (c as int + 32) as char else c
  }

  /** Lower-cases the ASCII letters of `s`. Python's `str.lower()` agrees with it
      whenever the result is compared with an all-ASCII lower-case word that
      has no `k` or `s` (no non-ASCII character lowers to one of its letters). */
  function AsciiLower(s: string): (r: string)
    ensures |r| == |s|
    ensures forall k :: 0 <= k < |s| ==> r[k] == LowerChar(s[k])
  {
    seq(|s|, k requires 0 <= k < |s| => LowerChar(s[k]))
  }

  /** ASCII upper-casing of one lower-case letter; other characters are
      unchanged. */
  function UpperChar(c: char): char {
    if 'a' <= c <= 'z' then (c as int - 32) as char else c
  }

  /** Lower-casing gives an all-lower-case ASCII word exactly when the text
      has the word's length and each of its characters is the word's letter
      in either case: the case-insensitive comparison the callers rely on. */
  lemma AsciiLowerMatches(s: string, w: string)
    requires forall k :: 0 <= k < |w| ==> 'a' <= w[k] <= 'z'
    ensures AsciiLower(s) == w <==>
      |s| == |w| && forall k :: 0 <= k < |s| ==> s[k] == w[k] || s[k] == UpperChar(w[k])
  {
    if |s| == |w| && forall k :: 0 <= k < |s| ==> s[k] == w[k] || s[k] == UpperChar(w[k]) {
      forall k | 0 <= k < |s| ensures AsciiLower(s)[k] == w[k] {
        assert 'A' <= UpperChar(w[k]) <= 'Z';
      }
    }
    if AsciiLower(s) == w {
      forall k | 0 <= k < |s| ensures s[k] == w[k] || s[k] == UpperChar(w[k]) {
        assert LowerChar(s[k]) == w[k];
      }
    }
  }

  predicate IsDigit(c: char) {
    '0' <= c <= '9'
  }

  function DigitChar(d: nat): (c: char)
    requires d < 10
    ensures IsDigit(c)
  {
    ('0' as int + d) as char
  }

  /** Decimal rendering of a natural number, without leading zeros. */
  function NatToString(n: nat): (r: string)
    ensures r != [] && forall k :: 0 <= k < |r| ==> IsDigit(r[k])
    ensures r[0] == '0' ==> n == 0
    decreases n
  {
    if n < 10 then [DigitChar(n)] else NatToString(n / 10) + [DigitChar(n % 10)]
  }

  /** Python's `str(i)` and JavaScript's `String(i)` for an integer `i`. */
  function IntToString(i: int): (r: string)
    ensures r != []
  {
    if i < 0 then "-" + NatToString(-i) else NatToString(i)
  }

  predicate AllDigits(s: string) {
    forall k :: 0 <= k < |s| ==> IsDigit(s[k])
  }

  /** The value of a non-empty run of ASCII decimal digits. */
  function DigitsValue(s: string): nat
    requires AllDigits(s)
    decreases |s|
  {
    if |s| == 0 then 0
    else
      assert IsDigit(s[|s| - 1]);
      DigitsValue(s[..|s| - 1]) * 10 + (s[|s| - 1] as int - '0' as int)
  }

  /** Reads back an optionally negative decimal integer; any other text gives
      `None`. */
  function ParseInt(s: string): Option<int> {
    if |s| > 1 && s[0] == '-' && AllDigits(s[1..]) then Some(0 - DigitsValue(s[1..]) as int)
    else if |s| > 0 && AllDigits(s) then Some(DigitsValue(s))
    else None
  }

  lemma {:induction false} DigitsValueOfNat(n: nat)
    ensures DigitsValue(NatToString(n)) == n
    decreases n
  {
    var r := NatToString(n);
    if n >= 10 {
      DigitsValueOfNat(n / 10);
      assert r[..|r| - 1] == NatToString(n / 10);
    }
  }

  /** Rendering an integer in decimal and reading it back gives the integer. */
  lemma IntToStringRoundTrip(i: int)
    ensures ParseInt(IntToString(i)) == Some(i)
  {
    if i < 0 {
      var t := NatToString(-i);
      assert IntToString(i)[1..] == t;
      DigitsValueOfNat(-i);
    } else {
      DigitsValueOfNat(i);
    }
  }

  /** JavaScript's `s.length`: the number of UTF-16 code units of `s`. */
  function Utf16Length(s: string): (n: nat)
    ensures |s| <= n <= 2 * |s|
    decreases |s|
  {
    if |s| == 0 then 0
    else Utf16Length(s[..|s| - 1]) + (if s[|s| - 1] as int > 0xFFFF then 2 else 1)
  }
}
