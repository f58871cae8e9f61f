/**
 * The pieces of .NET string handling the plugin relies on: white-space tests,
 * `Trim`, invariant lower-casing, ordinal case-insensitive comparison,
 * substring search and decimal formatting of integers.
 *
 * Case mapping is modelled on the ASCII letters only; every other character is
 * its own upper and lower case.
 */
module Text {

  /** `char.IsWhiteSpace`: the Unicode separator characters plus the C0/C1 controls .NET counts as space. */
  predicate IsWhiteSpace(c: char) {
    || ('\U{9}' <= c <= '\U{D}')
    || c == ' '
    || c == '\U{85}'
    || c == '\U{A0}'
    || c == '\U{1680}'
    || ('\U{2000}' <= c <= '\U{200A}')
    || c == '\U{2028}'
    || c == '\U{2029}'
    || c == '\U{202F}'
    || c == '\U{205F}'
    || c == '\U{3000}'
  }

  /** Every character is white space; for a non-null string this is `string.IsNullOrWhiteSpace`. */
  predicate IsBlank(s: string) {
    forall i :: 0 <= i < |s| ==> IsWhiteSpace(s[i])
  }

  predicate IsUpperAscii(c: char) {
    'A' <= c <= 'Z'
  }

  /** `char.ToLowerInvariant`, restricted to the ASCII letters. */
  function LowerChar(c: char): char {
    if IsUpperAscii(c) then (c as int + 32) as char else c
  }

  /** `string.ToLowerInvariant`: lower-cases character by character. */
  function Lower(s: string): (r: string)
    ensures |r| == |s|
    ensures forall i :: 0 <= i < |s| ==> r[i] == LowerChar(s[i])
  {
    seq(|s|, i requires 0 <= i < |s| => LowerChar(s[i]))
  }

  /** `string.Equals(a, b, StringComparison.OrdinalIgnoreCase)` on ASCII case. */
  predicate EqualsIgnoreCase(a: string, b: string) {
    |a| == |b| && forall i :: 0 <= i < |a| ==> LowerChar(a[i]) == LowerChar(b[i])
  }

  /** `needle` occurs in `s` starting at index `i`. */
  predicate OccursAt(s: string, i: int, needle: string) {
    0 <= i && i + |needle| <= |s| && s[i..i + |needle|] == needle
  }

  /** `s.Contains(needle)`, an ordinal substring test. */
  predicate Contains(s: string, needle: string) {
    exists i :: 0 <= i <= |s| - |needle| && OccursAt(s, i, needle)
  }

  /** `s.StartsWith(prefix)`, compared ordinally. */
  predicate StartsWith(s: string, prefix: string) {
    |prefix| <= |s| && s[..|prefix|] == prefix
  }

  /** Positions `a` up to `b` hold only white space. */
  predicate Gap(s: string, a: int, b: int) {
    0 <= a <= b <= |s| && forall t :: a <= t < b ==> IsWhiteSpace(s[t])
  }

  /** The first index at or after `i` that is not white space (`|s|` if none). */
  function SkipSpace(s: string, i: nat): (j: nat)
    requires i <= |s|
    ensures i <= j && Gap(s, i, j)
    ensures j < |s| ==> !IsWhiteSpace(s[j])
    decreases |s| - i
  {
    if i < |s| && IsWhiteSpace(s[i]) then SkipSpace(s, i + 1) else i
  }

  /** The last index at or before `j` with no white space between it and `j` but a non-space just before it (`0` if none). */
  function SkipSpaceBack(s: string, j: nat): (i: nat)
    requires j <= |s|
    ensures i <= j && Gap(s, i, j)
    ensures 0 < i ==> !IsWhiteSpace(s[i - 1])
    decreases j
  {
    if 0 < j && IsWhiteSpace(s[j - 1]) then SkipSpaceBack(s, j - 1) else j
  }

  /** A white-space gap ending at a non-space character ends exactly where `SkipSpace` stops. */
  lemma SkipSpaceStopsAt(s: string, a: nat, b: nat)
    requires Gap(s, a, b) && b < |s| && !IsWhiteSpace(s[b])
    ensures SkipSpace(s, a) == b
  {
  }

  /** A white-space gap starting after a non-space character starts exactly where `SkipSpaceBack` stops. */
  lemma SkipSpaceBackStopsAt(s: string, a: nat, b: nat)
    requires Gap(s, a, b) && 0 < a && !IsWhiteSpace(s[a - 1])
    ensures SkipSpaceBack(s, b) == a
  {
  }

  /** Drops leading white space (`TrimStart()`): what is left is a suffix after a blank prefix. */
  function TrimStart(s: string): (r: string)
    ensures |r| <= |s| && r == s[|s| - |r|..] && IsBlank(s[..|s| - |r|])
    ensures |r| > 0 ==> !IsWhiteSpace(r[0])
  {
    s[SkipSpace(s, 0)..]
  }

  /** Drops trailing white space (`TrimEnd()`): what is left is a prefix before a blank suffix. */
  function TrimEnd(s: string): (r: string)
    ensures |r| <= |s| && r == s[..|r|] && IsBlank(s[|r|..])
    ensures |r| > 0 ==> !IsWhiteSpace(r[|r| - 1])
  {
    s[..SkipSpaceBack(s, |s|)]
  }

  /** `string.Trim()`: removes white space at both ends. */
  function Trim(s: string): (r: string)
    ensures |r| <= |s|
    ensures |r| > 0 ==> !IsWhiteSpace(r[0]) && !IsWhiteSpace(r[|r| - 1])
    ensures |r| == 0 <==> IsBlank(s)
  {
    var a := TrimStart(s);
    var r := TrimEnd(a);
    var k := |s| - |a|;
    assert |r| == 0 ==> IsBlank(s) by {
      if |r| == 0 {
        assert IsBlank(a[0..]);
        assert |a| == 0;
        assert s == s[..k];
      }
    }
    assert |r| > 0 ==> !IsBlank(s) by {
      if |r| > 0 {
        assert s[k] == a[0] == r[0];
      }
    }
    r
  }

  /** `TrimStart` removes exactly a white-space prefix in front of a word that starts with a non-space. */
  lemma TrimStartPadded(pad: string, s: string)
    requires IsBlank(pad)
    requires |s| > 0 && !IsWhiteSpace(s[0])
    ensures TrimStart(pad + s) == s
  {
    var t := pad + s;
    assert Gap(t, 0, |pad|) by {
      forall i | 0 <= i < |pad| ensures IsWhiteSpace(t[i]) { assert t[i] == pad[i]; }
    }
    SkipSpaceStopsAt(t, 0, |pad|);
    assert t[|pad|..] == s;
  }

  /** `TrimEnd` removes exactly a white-space suffix behind a word that ends with a non-space. */
  lemma TrimEndPadded(s: string, pad: string)
    requires IsBlank(pad)
    requires |s| > 0 && !IsWhiteSpace(s[|s| - 1])
    ensures TrimEnd(s + pad) == s
  {
    var t := s + pad;
    assert Gap(t, |s|, |t|) by {
      forall i | |s| <= i < |t| ensures IsWhiteSpace(t[i]) { assert t[i] == pad[i - |s|]; }
    }
    assert t[|s| - 1] == s[|s| - 1];
    SkipSpaceBackStopsAt(t, |s|, |t|);
    assert t[..|s|] == s;
  }

  /** `Trim` undoes white-space padding on both sides of a word with non-space ends. */
  lemma TrimPadded(left: string, s: string, right: string)
    requires IsBlank(left) && IsBlank(right)
    requires |s| > 0 && !IsWhiteSpace(s[0]) && !IsWhiteSpace(s[|s| - 1])
    ensures Trim(left + s + right) == s
  {
    assert left + s + right == left + (s + right);
    assert (s + right)[0] == s[0];
    TrimStartPadded(left, s + right);
    TrimEndPadded(s, right);
  }

  /** One decimal digit. */
  function DigitChar(d: nat): char
    requires d < 10
  {
    "0123456789"[d]
  }

  /** The decimal digits of `n` without leading zeros, as `n.ToString()` prints them. */
  function NatToString(n: nat): (r: string)
    ensures |r| > 0
    ensures forall i :: 0 <= i < |r| ==> '0' <= r[i] <= '9'
  {
    if n < 10 then [DigitChar(n)] else NatToString(n / 10) + [DigitChar(n % 10)]
  }

  /** `int.ToString()` under the invariant culture: an optional minus sign, then the digits. */
  function IntToString(n: int): (r: string)
    ensures |r| > 0
    ensures n < 0 <==> r[0] == '-'
  {
    if n < 0 then "-" + NatToString(-n) else NatToString(n)
  }
}
