/**
 * `LocalSteamDeckSource`: one Steam store `appdetails` request per call,
 * retried only on network errors, with the body classified by a
 * priority-ordered keyword scan; and the placeholder `WebSteamDeckSource`.
 *
 * The two regular expressions `steam[_ ]?deck.*verified` and
 * `steam[_ ]?deck.*playable` are modelled as existential substring predicates
 * (`.` matches anything but a line feed); the `steam_deck_compatibility` field
 * capture is the same leftmost quoted-field scan the ProtonDB client uses.
 */
module SteamDeck {
  import opened Common
  import opened Text
  import opened Domain
  import opened Retry
  import FieldScan

  /** The client gives up after this many requests. */
  const MaxAttempts: nat := 3

  /** The field whose value the last classification stage reads. */
  const CompatibilityField: string := "steam_deck_compatibility"

  /** `steam[_ ]?deck` matches `s` from `i` up to (not including) `e`. */
  predicate DeckSpan(s: string, i: int, e: int) {
    OccursAt(s, i, "steam")
    && ((e == i + 9 && OccursAt(s, i + 5, "deck"))
        || (e == i + 10 && OccursAt(s, i + 6, "deck") && (s[i + 5] == '_' || s[i + 5] == ' ')))
  }

  /** No line feed between `a` and `b`. */
  predicate OnOneLine(s: string, a: int, b: int)
    requires 0 <= a <= b <= |s|
  {
    forall t :: a <= t < b ==> s[t] != '\n'
  }

  /** `Regex.IsMatch(s, "steam[_ ]?deck.*" + word)`: a deck mention followed, on the same line, by `word`. */
  predicate DeckThen(s: string, word: string) {
    exists i, e, p :: 0 <= i <= |s| && 0 <= e <= |s| && 0 <= p <= |s|
      && i <= e <= p && DeckSpan(s, i, e) && OccursAt(s, p, word) && OnOneLine(s, e, p)
  }

  /** Any of the three phrases the classifier reads as Unsupported. */
  predicate SaysUnsupported(lower: string) {
    Contains(lower, "unsupported") || Contains(lower, "not supported") || Contains(lower, "not compatible")
  }

  /** The last stage: the value of the first `"steam_deck_compatibility": "..."` field, lower-cased. */
  function FieldVerdict(body: string): SteamDeckCompatibility {
    match FieldScan.Find(body, CompatibilityField)
    case None => SteamDeckCompatibility.Unknown
    case Some(v) =>
      var value := Lower(v);
      if Contains(value, "verified") then Verified
      else if Contains(value, "playable") then Playable
      else if Contains(value, "unsupported") || Contains(value, "borked") then Unsupported
      else SteamDeckCompatibility.Unknown
  }

  /** The keyword classifier applied to a response body, stage by stage. */
  function Classify(body: string): SteamDeckCompatibility {
    if IsBlank(body) then SteamDeckCompatibility.Unknown
    else
      var lower := Lower(body);
      if DeckThen(lower, "verified") || Contains(lower, "steam deck verified") then Verified
      else if DeckThen(lower, "playable") || Contains(lower, "playable") then Playable
      else if SaysUnsupported(lower) then Unsupported
      else FieldVerdict(body)
  }

  /** A piece of an occurrence is an occurrence of the piece. */
  lemma OccursWithin(s: string, i: int, big: string, off: int, small: string)
    requires OccursAt(s, i, big) && 0 <= off && off + |small| <= |big| && big[off..off + |small|] == small
    ensures OccursAt(s, i + off, small)
  {
    forall t | 0 <= t < |small| ensures s[i + off + t] == small[t] {
      assert s[i + off + t] == s[i..i + |big|][off + t] == big[off + t];
      assert big[off + t] == big[off..off + |small|][t];
    }
  }

  /** The literal phrase test of the first stage is subsumed by its pattern. */
  lemma VerifiedPhraseMatchesPattern(s: string)
    requires Contains(s, "steam deck verified")
    ensures DeckThen(s, "verified")
  {
    var phrase := "steam deck verified";
    var i :| 0 <= i <= |s| - |phrase| && OccursAt(s, i, phrase);
    assert phrase[0..5] == "steam";
    assert phrase[6..10] == "deck";
    assert phrase[11..19] == "verified";
    OccursWithin(s, i, phrase, 0, "steam");
    OccursWithin(s, i, phrase, 6, "deck");
    OccursWithin(s, i, phrase, 11, "verified");
    assert s[i + 5] == s[i..i + 19][5] == ' ';
    assert s[i + 10] == s[i..i + 19][10] == ' ';
    assert DeckSpan(s, i, i + 10);
    assert OnOneLine(s, i + 10, i + 11);
  }

  /** The pattern of the second stage is subsumed by its plain word test. */
  lemma PlayablePatternHasWord(s: string)
    requires DeckThen(s, "playable")
    ensures Contains(s, "playable")
  {
    var i, e, p :| 0 <= i <= |s| && 0 <= e <= |s| && 0 <= p <= |s|
      && i <= e <= p && DeckSpan(s, i, e) && OccursAt(s, p, "playable") && OnOneLine(s, e, p);
  }

  /** Lower-casing commutes with taking a slice. */
  lemma LowerSlice(s: string, a: int, b: int)
    requires 0 <= a <= b <= |s|
    ensures Lower(s)[a..b] == Lower(s[a..b])
  {
  }

  /** A word in the lower-cased capture of the field scan also occurs in the lower-cased body. */
  lemma CaptureWordInBody(body: string, name: string, v: string, word: string)
    requires FieldScan.Find(body, name) == Some(v)
    requires Contains(Lower(v), word)
    ensures Contains(Lower(body), word)
  {
    FieldScan.FindCaptureShape(body, name, v);
    var k :| 0 <= k <= |body| - |v| && OccursAt(body, k, v);
    var q :| 0 <= q <= |v| - |word| && OccursAt(Lower(v), q, word);
    LowerSlice(body, k, k + |v|);
    assert Lower(body)[k..k + |v|] == Lower(v);
    assert Lower(body)[k + q..k + q + |word|] == Lower(v)[q..q + |word|];
    assert OccursAt(Lower(body), k + q, word);
  }

  /**
   * The field stage is only reached when the body has no "playable" and none of the Unsupported
   * phrases, so it can only add Verified, or Unsupported through a "borked" value; its own
   * "playable" and "unsupported" tests can never fire.
   */
  lemma FieldStageNeverPlayable(body: string)
    requires !Contains(Lower(body), "playable") && !SaysUnsupported(Lower(body))
    ensures FieldVerdict(body) != Playable
    ensures FieldVerdict(body) == Unsupported ==>
      exists v :: FieldScan.Find(body, CompatibilityField) == Some(v) && Contains(Lower(v), "borked")
  {
    match FieldScan.Find(body, CompatibilityField)
    case None =>
    case Some(v) =>
      if Contains(Lower(v), "playable") {
        CaptureWordInBody(body, CompatibilityField, v, "playable");
      }
      if Contains(Lower(v), "unsupported") {
        CaptureWordInBody(body, CompatibilityField, v, "unsupported");
      }
  }

  /** Classification gives Verified exactly when the body has a deck mention followed by "verified" on one line, or the field stage says so. */
  lemma ClassifyVerified(body: string)
    ensures Classify(body) == Verified <==>
      !IsBlank(body) && (DeckThen(Lower(body), "verified")
        || (!Contains(Lower(body), "playable") && !SaysUnsupported(Lower(body)) && FieldVerdict(body) == Verified))
  {
    if Contains(Lower(body), "steam deck verified") {
      VerifiedPhraseMatchesPattern(Lower(body));
    }
    if DeckThen(Lower(body), "playable") {
      PlayablePatternHasWord(Lower(body));
    }
  }

  /** Classification gives Playable exactly when the non-blank body contains "playable" and the Verified stage did not fire. */
  lemma ClassifyPlayable(body: string)
    ensures Classify(body) == Playable <==>
      !IsBlank(body) && !DeckThen(Lower(body), "verified") && Contains(Lower(body), "playable")
  {
    if Contains(Lower(body), "steam deck verified") {
      VerifiedPhraseMatchesPattern(Lower(body));
    }
    if DeckThen(Lower(body), "playable") {
      PlayablePatternHasWord(Lower(body));
    }
    if !Contains(Lower(body), "playable") && !SaysUnsupported(Lower(body)) {
      FieldStageNeverPlayable(body);
    }
  }

  /** A blank body is Unknown, whatever else holds. */
  lemma ClassifyBlank(body: string)
    requires IsBlank(body)
    ensures Classify(body) == SteamDeckCompatibility.Unknown
  {
  }

  /** One scripted outcome of an `appdetails` request: the body is read as text. */
  type DeckOutcome = Outcome<string>

  /** The body of the retry loop for one outcome: only a network error is retried. */
  function AttemptStep(o: DeckOutcome): (st: Step<SteamDeckCompatibility>)
    ensures st.Again? <==> o.Fault?
    ensures o.Response? && IsClientError(o.status) ==> st == Finish(Returned(SteamDeckCompatibility.Unknown))
    ensures o.Response? && !IsClientError(o.status) ==> st == Finish(Returned(Classify(o.body)))
    ensures o.Cancelled? <==> st == Finish(ThrewCancelled)
    ensures st.Finish? ==> !st.ending.ThrewArgumentOutOfRange?
  {
    match o
    case Response(status, body) =>
      if IsClientError(status) then Finish(Returned(SteamDeckCompatibility.Unknown))
      else Finish(Returned(Classify(body)))
    case Fault => Again
    case Cancelled => Finish(ThrewCancelled)
  }

  /**
   * Any response that is not a 4xx, a 5xx included, is read like a success: it ends the call as Verified
   * exactly when its body says so by the classifier's first or last stage.
   */
  lemma ResponseVerified(status: int, body: string)
    requires !IsClientError(status)
    ensures AttemptStep(Response(status, body)) == Finish(Returned(Verified)) <==>
      !IsBlank(body) && (DeckThen(Lower(body), "verified")
        || (!Contains(Lower(body), "playable") && !SaysUnsupported(Lower(body)) && FieldVerdict(body) == Verified))
  {
    ClassifyVerified(body);
  }

  /** Likewise, such a response ends the call as Playable exactly when the body mentions "playable" and the Verified stage did not fire. */
  lemma ResponsePlayable(status: int, body: string)
    requires !IsClientError(status)
    ensures AttemptStep(Response(status, body)) == Finish(Returned(Playable)) <==>
      !IsBlank(body) && !DeckThen(Lower(body), "verified") && Contains(Lower(body), "playable")
  {
    ClassifyPlayable(body);
  }

  /**
   * `GetCompatibilityAsync`: returns the category, how many requests were made and the pauses taken.
   * A non-positive id is Unknown without a request. A 4xx response is Unknown; any other response,
   * 5xx included, is classified; a network error is retried after a doubling pause, up to
   * `MaxAttempts` requests in all, and then the call gives Unknown.
   */
  method GetCompatibility(appId: int, script: seq<DeckOutcome>) returns (r: Ending<SteamDeckCompatibility>, requests: nat, delays: seq<nat>)
    ensures appId <= 0 ==> r == Returned(SteamDeckCompatibility.Unknown) && requests == 0 && delays == []
    ensures appId > 0 ==> 1 <= requests <= MaxAttempts
    ensures appId > 0 ==> forall i :: 0 <= i < requests - 1 ==> OutcomeAt(script, i).Fault?
    ensures appId > 0 ==>
      var last := OutcomeAt(script, requests - 1);
      (!last.Fault? ==> r == AttemptStep(last).ending)
      && (last.Fault? ==> requests == MaxAttempts && r == Returned(SteamDeckCompatibility.Unknown))
    ensures appId > 0 ==> delays == Backoffs(requests - 1)
    ensures !r.ThrewArgumentOutOfRange?
    ensures appId > 0 && OutcomeAt(script, 0).Response? ==>
      requests == 1 && r == AttemptStep(OutcomeAt(script, 0)).ending
  {
    if appId <= 0 {
      return Returned(SteamDeckCompatibility.Unknown), 0, [];
    }
    var attempt: nat := 0;
    delays := [];
    while true
      invariant attempt < MaxAttempts
      invariant forall i :: 0 <= i < attempt ==> OutcomeAt(script, i).Fault?
      invariant delays == Backoffs(attempt)
      decreases MaxAttempts - attempt
    {
      attempt := attempt + 1;
      var step := AttemptStep(OutcomeAt(script, attempt - 1));
      if step.Finish? {
        return step.ending, attempt, delays;
      }
      if attempt >= MaxAttempts {
        return Returned(SteamDeckCompatibility.Unknown), attempt, delays;
      }
      delays := delays + [Backoff(attempt)];
    }
  }

  /** `WebSteamDeckSource.GetCompatibilityAsync`: a placeholder that knows nothing about any id. */
  function WebCompatibility(appId: int): (r: SteamDeckCompatibility)
    ensures r == SteamDeckCompatibility.Unknown
  {
    SteamDeckCompatibility.Unknown
  }
}
