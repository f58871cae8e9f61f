/**
 * The fallback text scan both upstream clients use on raw response bodies: the
 * .NET regular expression `"NAME"\s*:\s*"(?<v>[^"]+)"` with `IgnoreCase`, which
 * finds the leftmost quoted string value of a field called NAME.
 *
 * The pattern admits no real backtracking: `\s*` is always followed by a
 * non-space character and `[^"]+` by a quote, so the match at a given position
 * is decided by a single left-to-right scan. `MatchAt` is that scan; `FieldAt`
 * is the pattern read as a declarative description; the two are proved equal.
 */
module FieldScan {
  import opened Common
  import opened Text

  /** The first index at or after `i` holding a double quote (`|s|` if none): what greedy `[^"]*` consumes. */
  function SkipToQuote(s: string, i: nat): (j: nat)
    requires i <= |s|
    ensures i <= j <= |s|
    ensures forall t :: i <= t < j ==> s[t] != '"'
    ensures j < |s| ==> s[j] == '"'
    decreases |s| - i
  {
    if i < |s| && s[i] != '"' then SkipToQuote(s, i + 1) else i
  }

  /** The quoted field name, in any ASCII letter case, starts at `i`. */
  predicate NameAt(s: string, i: int, name: string) {
    0 <= i && i + |name| + 2 <= |s|
    && s[i] == '"' && EqualsIgnoreCase(s[i + 1..i + |name| + 1], name) && s[i + |name| + 1] == '"'
  }

  /** `v` is a non-empty run of non-quote characters enclosed in double quotes, the opening one at `k`. */
  predicate QuotedAt(s: string, k: int, v: string) {
    0 <= k && k + |v| + 1 < |s|
    && s[k] == '"' && |v| > 0 && s[k + 1..k + 1 + |v|] == v && s[k + 1 + |v|] == '"'
    && forall t :: 0 <= t < |v| ==> v[t] != '"'
  }

  /** The pattern matches at `i` capturing `v`: quoted name, spaces, colon, spaces, quoted value. */
  ghost predicate FieldAt(s: string, i: int, name: string, v: string) {
    NameAt(s, i, name)
    && exists j, k :: Gap(s, i + |name| + 2, j) && j < |s| && s[j] == ':' && Gap(s, j + 1, k) && QuotedAt(s, k, v)
  }

  /** The capture when the pattern matches at position `i`, by a left-to-right scan. */
  function MatchAt(s: string, i: nat, name: string): (r: Option<string>)
    requires i <= |s|
  {
    var n := i + |name| + 2;
    if !NameAt(s, i, name) then None
    else
      var j := SkipSpace(s, n);
      if j == |s| || s[j] != ':' then None
      else
        var k := SkipSpace(s, j + 1);
        if k == |s| || s[k] != '"' then None
        else
          var e := SkipToQuote(s, k + 1);
          if e == k + 1 || e == |s| then None else Some(s[k + 1..e])
  }

  /** Whatever the scan captures is a match of the pattern. */
  lemma MatchAtSound(s: string, i: nat, name: string)
    requires i <= |s| && MatchAt(s, i, name).Some?
    ensures FieldAt(s, i, name, MatchAt(s, i, name).value)
  {
    var v := MatchAt(s, i, name).value;
    var j := SkipSpace(s, i + |name| + 2);
    var k := SkipSpace(s, j + 1);
    assert Gap(s, i + |name| + 2, j) && Gap(s, j + 1, k);
    assert QuotedAt(s, k, v);
  }

  /** Every match of the pattern is found by the scan. */
  lemma MatchAtComplete(s: string, i: nat, name: string, v: string)
    requires i <= |s| && FieldAt(s, i, name, v)
    ensures MatchAt(s, i, name) == Some(v)
  {
    var n := i + |name| + 2;
    var j, k :| Gap(s, n, j) && j < |s| && s[j] == ':' && Gap(s, j + 1, k) && QuotedAt(s, k, v);
    SkipSpaceStopsAt(s, n, j);
    SkipSpaceStopsAt(s, j + 1, k);
    QuotedValueScan(s, k, v);
    MatchAtFrom(s, i, name, j, k, v);
  }

  /** The scan over a quoted value stops at its closing quote. */
  lemma QuotedValueScan(s: string, k: int, v: string)
    requires QuotedAt(s, k, v)
    ensures SkipToQuote(s, k + 1) == k + 1 + |v|
  {
    var e := k + 1 + |v|;
    forall t | k + 1 <= t < e ensures s[t] != '"' {
      assert s[t] == s[k + 1..e][t - k - 1] == v[t - k - 1];
    }
    SkipToQuoteStopsAt(s, k + 1, e);
  }

  /** The scan's result, once each of its three stops is known. */
  lemma MatchAtFrom(s: string, i: nat, name: string, j: int, k: int, v: string)
    requires i <= |s| && NameAt(s, i, name)
    requires j < |s| && SkipSpace(s, i + |name| + 2) == j && s[j] == ':'
    requires SkipSpace(s, j + 1) == k && QuotedAt(s, k, v)
    requires SkipToQuote(s, k + 1) == k + 1 + |v|
    ensures MatchAt(s, i, name) == Some(v)
  {
  }

  /** The quote scan stops at the first quote. */
  lemma {:induction false} SkipToQuoteStopsAt(s: string, i: nat, e: nat)
    requires i <= e < |s| && s[e] == '"'
    requires forall t :: i <= t < e ==> s[t] != '"'
    ensures SkipToQuote(s, i) == e
    decreases e - i
  {
    if i < e {
      SkipToQuoteStopsAt(s, i + 1, e);
    }
  }

  /** The scan and the declarative reading of the pattern agree at every position. */
  lemma MatchAtIsFieldAt(s: string, i: nat, name: string, v: string)
    requires i <= |s|
    ensures MatchAt(s, i, name) == Some(v) <==> FieldAt(s, i, name, v)
  {
    if MatchAt(s, i, name) == Some(v) {
      MatchAtSound(s, i, name);
    }
    if FieldAt(s, i, name, v) {
      MatchAtComplete(s, i, name, v);
    }
  }

  /** The leftmost match at or after position `i`. */
  function FindFrom(s: string, i: nat, name: string): Option<string>
    requires i <= |s|
    decreases |s| - i
  {
    if i == |s| then None
    else
      match MatchAt(s, i, name)
      case Some(v) => Some(v)
      case None => FindFrom(s, i + 1, name)
  }

  /** `Regex.Match(s, pattern, IgnoreCase)` for the field `name`: the capture of the leftmost match, if any. */
  function Find(s: string, name: string): Option<string> {
    FindFrom(s, 0, name)
  }

  /** No match starts before position `i`. */
  ghost predicate NoFieldBefore(s: string, i: int, name: string) {
    forall j, w :: 0 <= j < i ==> !FieldAt(s, j, name, w)
  }

  /** No match of any capture starts at `i` when the scan finds none there. */
  lemma NoMatchAt(s: string, i: nat, name: string)
    requires i <= |s| && MatchAt(s, i, name).None?
    ensures forall w :: !FieldAt(s, i, name, w)
  {
    forall w ensures !FieldAt(s, i, name, w) {
      if FieldAt(s, i, name, w) { MatchAtComplete(s, i, name, w); }
    }
  }

  /** What `FindFrom` returns was matched at some position `p`, with no match in between. */
  lemma {:induction false} FindFromSound(s: string, i: nat, name: string) returns (p: nat)
    requires i <= |s| && FindFrom(s, i, name).Some?
    ensures i <= p < |s| && FieldAt(s, p, name, FindFrom(s, i, name).value)
    ensures forall j, w :: i <= j < p ==> !FieldAt(s, j, name, w)
    decreases |s| - i
  {
    if MatchAt(s, i, name).Some? {
      MatchAtSound(s, i, name);
      p := i;
    } else {
      NoMatchAt(s, i, name);
      p := FindFromSound(s, i + 1, name);
    }
  }

  /** The leftmost match at or after `i` is what `FindFrom` returns. */
  lemma {:induction false} FindFromComplete(s: string, i: nat, name: string, p: nat, v: string)
    requires i <= p < |s| && FieldAt(s, p, name, v)
    requires forall j, w :: i <= j < p ==> !FieldAt(s, j, name, w)
    ensures FindFrom(s, i, name) == Some(v)
    decreases p - i
  {
    if p == i {
      MatchAtComplete(s, i, name, v);
    } else {
      match MatchAt(s, i, name)
      case Some(u) =>
        MatchAtSound(s, i, name);
        assert false;
      case None =>
        FindFromComplete(s, i + 1, name, p, v);
    }
  }

  /** `Find` returns the capture of the leftmost position where the pattern matches, and nothing when it matches nowhere. */
  lemma FindIsLeftmostMatch(s: string, name: string, v: string)
    ensures Find(s, name) == Some(v)
      <==> exists p :: 0 <= p < |s| && FieldAt(s, p, name, v) && NoFieldBefore(s, p, name)
  {
    if Find(s, name) == Some(v) {
      var p := FindFromSound(s, 0, name);
      assert NoFieldBefore(s, p, name);
    }
    if exists p :: 0 <= p < |s| && FieldAt(s, p, name, v) && NoFieldBefore(s, p, name) {
      var p :| 0 <= p < |s| && FieldAt(s, p, name, v) && NoFieldBefore(s, p, name);
      FindFromComplete(s, 0, name, p, v);
    }
  }

  /** A capture is a non-empty, quote-free piece of the scanned text. */
  lemma FindCaptureShape(s: string, name: string, v: string)
    requires Find(s, name) == Some(v)
    ensures |v| > 0 && forall t :: 0 <= t < |v| ==> v[t] != '"'
    ensures Contains(s, v)
  {
    FindIsLeftmostMatch(s, name, v);
    var p :| 0 <= p < |s| && FieldAt(s, p, name, v) && NoFieldBefore(s, p, name);
    var j, k :| Gap(s, p + |name| + 2, j) && j < |s| && s[j] == ':' && Gap(s, j + 1, k) && QuotedAt(s, k, v);
    assert OccursAt(s, k + 1, v);
  }
}
