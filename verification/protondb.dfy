/**
 * `ProtonDbClient`: one summary request per call, retried on transient
 * failures, with the tier parsed from the JSON body and a deterministic
 * fallback profile URL on every failure path.
 *
 * The JSON deserialiser is abstracted as the object graph it produced, if any.
 */
module ProtonDb {
  import opened Common
  import opened Text
  import opened Domain
  import opened Json
  import FieldScan
  import opened Retry

  /** The summary endpoint template the client uses when none is configured. */
  const DefaultApiUrl: string := "https://www.protondb.com/api/v1/reports/summaries/{0}.json"

  /** `maxRetries`: the total number of requests one call may make. */
  const MaxRetries: nat := 3

  /** Keys searched, in priority order, for the tier and for the profile URL. */
  const TierKeys: seq<string> := ["tier", "best_guess", "tier_name"]
  const UrlKeys: seq<string> := ["url", "profile_url", "link"]

  /** `https://www.protondb.com/app/{appId}`, used whenever no URL was parsed. */
  function FallbackUrl(appId: int): string {
    "https://www.protondb.com/app/" + IntToString(appId)
  }

  /** The lower-case spelling `ParseTier` accepts for each tier. */
  function TierKey(t: ProtonDbTier): string {
    match t
    case Unknown => "unknown"
    case Platinum => "platinum"
    case Gold => "gold"
    case Silver => "silver"
    case Bronze => "bronze"
    case Plausible => "plausible"
    case Borked => "borked"
  }

  /** The switch at the heart of `ParseTier`: the six names, anything else Unknown. */
  function TierOfKey(n: string): ProtonDbTier {
    if n == "platinum" then Platinum
    else if n == "gold" then Gold
    else if n == "silver" then Silver
    else if n == "bronze" then Bronze
    else if n == "plausible" then Plausible
    else if n == "borked" then Borked
    else ProtonDbTier.Unknown
  }

  /** `ParseTier`: trims and lower-cases, then matches the six tier names; anything else, null included, is Unknown. */
  function ParseTier(s: Option<string>): (r: ProtonDbTier)
    ensures r != ProtonDbTier.Unknown ==> s.Some? && Lower(Trim(s.value)) == TierKey(r)
  {
    if s.None? || IsBlank(s.value) then ProtonDbTier.Unknown
    else TierOfKey(Lower(Trim(s.value)))
  }

  /** Each tier's key is its enum name in lower case. */
  lemma TierKeyIsLowerName(t: ProtonDbTier)
    ensures Lower(TierName(t)) == TierKey(t)
  {
    var a, b := Lower(TierName(t)), TierKey(t);
    assert |a| == |b|;
    forall i | 0 <= i < |a| ensures a[i] == b[i] {
      assert a[i] == LowerChar(TierName(t)[i]);
    }
  }

  /** The switch and the key table agree: `TierOfKey` gives a known tier exactly for that tier's key. */
  lemma TierOfKeyExact(n: string, t: ProtonDbTier)
    requires t != ProtonDbTier.Unknown
    ensures TierOfKey(n) == t <==> n == TierKey(t)
  {
    match t
    case Platinum =>
    case Gold =>
    case Silver =>
    case Bronze =>
    case Plausible =>
    case Borked =>
  }

  /** Every key, "unknown" included, maps back to its own tier. */
  lemma TierOfKeyInverse(t: ProtonDbTier)
    ensures TierOfKey(TierKey(t)) == t
  {
  }

  /** A tier is recognised exactly when the trimmed, lower-cased text is its key. */
  lemma ParseTierExact(s: Option<string>, t: ProtonDbTier)
    requires t != ProtonDbTier.Unknown
    ensures ParseTier(s) == t <==> s.Some? && Lower(Trim(s.value)) == TierKey(t)
  {
    TierOfKeyExact(if s.Some? then Lower(Trim(s.value)) else "", t);
    if s.Some? && IsBlank(s.value) {
      assert |Lower(Trim(s.value))| == 0;
    }
  }

  /** Round trip: any tier's name, in any letter case and padded with white space, parses back to that tier. */
  lemma ParseTierRoundTrip(t: ProtonDbTier, left: string, word: string, right: string)
    requires IsBlank(left) && IsBlank(right)
    requires EqualsIgnoreCase(word, TierName(t))
    ensures ParseTier(Some(left + word + right)) == t
  {
    var name := TierName(t);
    TierKeyIsLowerName(t);
    assert Lower(word) == Lower(name);
    assert LowerChar(word[0]) == TierKey(t)[0];
    assert LowerChar(word[|word| - 1]) == TierKey(t)[|word| - 1];
    TrimPadded(left, word, right);
    var s := left + word + right;
    assert !IsBlank(s) by {
      assert s[|left|] == word[0];
    }
    TierOfKeyInverse(t);
  }

  /** A response body: its text and what the JSON deserialiser made of it (`None` when it threw or gave null). */
  datatype Body = Body(text: string, json: Option<Json>)

  /**
   * `ParseJsonSummary`. A blank body or one that does not deserialise to an object gives Unknown with
   * no URL; an object is read by `ParseObject`.
   */
  function ParseJsonSummary(body: Body): ProtonDbResult {
    if IsBlank(body.text) then ProtonDbResult(ProtonDbTier.Unknown, None)
    else
      match body.json
      case Some(JObject(members)) => ParseObject(body.text, members)
      case _ => ProtonDbResult(ProtonDbTier.Unknown, None)
  }

  /**
   * The tier and URL keys are searched in the object; when that finds neither a tier nor a non-empty
   * URL, the regular-expression scan of the raw text for `"tier"` and `"url"` decides, if it matches.
   */
  function ParseObject(text: string, members: seq<Member>): ProtonDbResult {
    var url := GetNestedString(JObject(members), UrlKeys);
    var tier := ParseTier(GetNestedString(JObject(members), TierKeys));
    if tier == ProtonDbTier.Unknown && (url.None? || url.value == "") then ScanText(text, ProtonDbResult(tier, url))
    else ProtonDbResult(tier, url)
  }

  /** The raw-text fallback: the two field captures when either matches, else `parsed` unchanged. */
  function ScanText(text: string, parsed: ProtonDbResult): ProtonDbResult {
    var tierMatch := FieldScan.Find(text, "tier");
    var urlMatch := FieldScan.Find(text, "url");
    if tierMatch.Some? || urlMatch.Some? then ProtonDbResult(ParseTier(tierMatch), urlMatch)
    else parsed
  }

  /** A blank body, or one that did not deserialise to an object, carries no tier and no URL. */
  lemma SummaryOfNoObject(body: Body)
    requires IsBlank(body.text) || body.json.None? || !body.json.value.JObject?
    ensures ParseJsonSummary(body) == ProtonDbResult(ProtonDbTier.Unknown, None)
  {
    if !IsBlank(body.text) && body.json.Some? {
      assert !body.json.value.JObject?;
    }
  }

  /** The object a summary response deserialises to: a tier key and a profile URL. */
  function SummaryObject(t: ProtonDbTier, url: string): Json {
    JObject([Member("tier", JString(TierKey(t))), Member("url", JString(url))])
  }

  /** Every key is already trimmed and lower case, so it spells its tier's name in some letter case. */
  lemma TierKeySpellsName(t: ProtonDbTier)
    ensures EqualsIgnoreCase(TierKey(t), TierName(t))
  {
    TierKeyIsLowerName(t);
    var k, n := TierKey(t), TierName(t);
    forall i | 0 <= i < |k| ensures LowerChar(k[i]) == LowerChar(n[i]) {
      assert k[i] == Lower(n)[i] == LowerChar(n[i]);
    }
  }

  /** Each tier's key parses back to the tier. */
  lemma ParseTierOfKey(t: ProtonDbTier)
    ensures ParseTier(Some(TierKey(t))) == t
  {
    var k := TierKey(t);
    TierKeySpellsName(t);
    assert "" + k + "" == k;
    ParseTierRoundTrip(t, "", k, "");
  }

  /** The key search finds the tier key and the URL at the top level of a summary object. */
  lemma SummaryObjectFields(t: ProtonDbTier, url: string)
    ensures GetNestedString(SummaryObject(t, url), TierKeys) == Some(TierKey(t))
    ensures GetNestedString(SummaryObject(t, url), UrlKeys) == Some(url)
  {
    var members := SummaryObject(t, url).members;
    assert EqualsIgnoreCase(members[0].name, "tier");
    assert Lookup(members, "tier") == Some(JString(TierKey(t)));
    assert TopLevel(members, TierKeys) == Some(TierKey(t));
    assert !EqualsIgnoreCase(members[0].name, "url");
    assert EqualsIgnoreCase(members[1].name, "url");
    assert Lookup(members, "url") == Lookup(members[1..], "url") == Some(JString(url));
    assert TopLevel(members, UrlKeys) == Some(url);
  }

  /**
   * Round trip: a summary object holding a tier's key and a profile URL parses back to that tier and
   * URL, unless both are empty answers (an unknown tier with an empty URL), which sends the parser to
   * the raw-text scan instead.
   */
  lemma SummaryRoundTrip(t: ProtonDbTier, url: string, text: string)
    requires !IsBlank(text)
    requires t != ProtonDbTier.Unknown || url != ""
    ensures ParseJsonSummary(Body(text, Some(SummaryObject(t, url)))) == ProtonDbResult(t, Some(url))
  {
    SummaryObjectFields(t, url);
    ParseTierOfKey(t);
    assert ParseObject(text, SummaryObject(t, url).members) == ProtonDbResult(t, Some(url));
  }

  /**
   * The fallback fires exactly on the source's condition: the object gives no known tier and no
   * non-empty URL. Then the text decides when either field matches: the tier in the leftmost `"tier"`
   * capture and the leftmost `"url"` capture; when neither matches, the object's (empty) reading stands.
   */
  lemma SummaryFallsBackToText(text: string, members: seq<Member>)
    requires !IsBlank(text)
    requires ParseTier(GetNestedString(JObject(members), TierKeys)) == ProtonDbTier.Unknown
    requires var url := GetNestedString(JObject(members), UrlKeys); url.None? || url.value == ""
    ensures var r := ParseJsonSummary(Body(text, Some(JObject(members))));
      var tierMatch := FieldScan.Find(text, "tier");
      var urlMatch := FieldScan.Find(text, "url");
      (tierMatch.Some? || urlMatch.Some? ==> r == ProtonDbResult(ParseTier(tierMatch), urlMatch))
      && (tierMatch.None? && urlMatch.None? ==>
            r == ProtonDbResult(ProtonDbTier.Unknown, GetNestedString(JObject(members), UrlKeys)))
  {
  }

  /**
   * Under the fallback condition, a `"tier"` field whose leftmost occurrence holds `v` decides the
   * tier, and the URL is the leftmost `"url"` capture, whatever the object held under its keys.
   */
  lemma SummaryFallsBackToLeftmostTier(text: string, members: seq<Member>, p: int, v: string)
    requires !IsBlank(text)
    requires ParseTier(GetNestedString(JObject(members), TierKeys)) == ProtonDbTier.Unknown
    requires var url := GetNestedString(JObject(members), UrlKeys); url.None? || url.value == ""
    requires FieldScan.FieldAt(text, p, "tier", v) && FieldScan.NoFieldBefore(text, p, "tier")
    ensures ParseJsonSummary(Body(text, Some(JObject(members))))
      == ProtonDbResult(ParseTier(Some(v)), FieldScan.Find(text, "url"))
  {
    assert 0 <= p < |text| by {
      assert FieldScan.NameAt(text, p, "tier");
    }
    FieldScan.FindIsLeftmostMatch(text, "tier", v);
    SummaryFallsBackToText(text, members);
  }

  /** One scripted outcome of a summary request. */
  type SummaryOutcome = Outcome<Body>

  /** The unknown result with the fallback URL, returned on every failure path. */
  function UnknownResult(appId: int): ProtonDbResult {
    ProtonDbResult(ProtonDbTier.Unknown, Some(FallbackUrl(appId)))
  }

  /**
   * The body of the retry loop for one outcome. A success is the parsed summary with the fallback URL
   * standing in for a missing one; a 4xx is Unknown; cancellation escapes; anything else is retried.
   */
  function AttemptStep(o: SummaryOutcome, appId: int): (st: Step<ProtonDbResult>)
    ensures st.Finish? && st.ending.Returned? ==> st.ending.value.url.Some?
    ensures o.Response? && IsSuccess(o.status) ==>
      st.Finish? && st.ending.Returned?
      && st.ending.value.tier == ParseJsonSummary(o.body).tier
      && (ParseJsonSummary(o.body).url.Some? ==> st.ending.value.url == ParseJsonSummary(o.body).url)
      && (ParseJsonSummary(o.body).url.None? ==> st.ending.value.url == Some(FallbackUrl(appId)))
    ensures o.Cancelled? <==> st == Finish(ThrewCancelled)
    ensures o.Response? && IsClientError(o.status) ==> st == Finish(Returned(UnknownResult(appId)))
    ensures st.Again? <==> o.Fault? || (o.Response? && !IsSuccess(o.status) && !IsClientError(o.status))
  {
    match o
    case Response(status, body) =>
      if IsSuccess(status) then
        var parsed := ParseJsonSummary(body);
        Finish(Returned(ProtonDbResult(parsed.tier, Some(parsed.url.GetOr(FallbackUrl(appId))))))
      else if IsClientError(status) then Finish(Returned(UnknownResult(appId)))
      else Again
    case Fault => Again
    case Cancelled => Finish(ThrewCancelled)
  }

  /** A success whose body is blank or not a JSON object gives Unknown with the fallback URL. */
  lemma SuccessWithoutObjectIsUnknown(status: int, body: Body, appId: int)
    requires IsSuccess(status)
    requires IsBlank(body.text) || body.json.None? || !body.json.value.JObject?
    ensures AttemptStep(Response(status, body), appId) == Finish(Returned(UnknownResult(appId)))
  {
    SummaryOfNoObject(body);
  }

  /** A success carrying a summary object returns that object's tier and profile URL. */
  lemma SuccessRoundTrip(status: int, t: ProtonDbTier, url: string, text: string, appId: int)
    requires IsSuccess(status) && !IsBlank(text)
    requires t != ProtonDbTier.Unknown || url != ""
    ensures AttemptStep(Response(status, Body(text, Some(SummaryObject(t, url)))), appId)
      == Finish(Returned(ProtonDbResult(t, Some(url))))
  {
    SummaryRoundTrip(t, url, text);
  }

  /**
   * `GetGameSummaryAsync`: returns the summary, how many requests were made and the pauses taken.
   * A non-positive id throws before any request. Each request either finishes the call or, on a
   * network error or a status that is neither success nor 4xx, is retried after a doubling pause,
   * up to `MaxRetries` requests in all; then the call gives Unknown with the fallback URL.
   */
  method GetGameSummary(appId: int, script: seq<SummaryOutcome>) returns (s: Ending<ProtonDbResult>, requests: nat, delays: seq<nat>)
    ensures appId <= 0 ==> s == ThrewArgumentOutOfRange && requests == 0 && delays == []
    ensures appId > 0 ==> 1 <= requests <= MaxRetries
    ensures appId > 0 ==> forall i :: 0 <= i < requests - 1 ==> AttemptStep(OutcomeAt(script, i), appId).Again?
    ensures appId > 0 ==>
      var last := AttemptStep(OutcomeAt(script, requests - 1), appId);
      (last.Finish? ==> s == last.ending)
      && (last.Again? ==> requests == MaxRetries && s == Returned(UnknownResult(appId)))
    ensures appId > 0 ==> delays == Backoffs(requests - 1)
    ensures s.Returned? ==> s.value.url.Some?
    ensures appId > 0 && OutcomeAt(script, 0).Response? && IsClientError(OutcomeAt(script, 0).status) ==>
      requests == 1 && s == Returned(UnknownResult(appId))
    ensures appId > 0 && OutcomeAt(script, 0).Response? && IsSuccess(OutcomeAt(script, 0).status) ==>
      requests == 1 && s == AttemptStep(OutcomeAt(script, 0), appId).ending
  {
    if appId <= 0 {
      return ThrewArgumentOutOfRange, 0, [];
    }
    var attempt: nat := 0;
    delays := [];
    while true
      invariant attempt < MaxRetries
      invariant forall i :: 0 <= i < attempt ==> AttemptStep(OutcomeAt(script, i), appId).Again?
      invariant delays == Backoffs(attempt)
      decreases MaxRetries - attempt
    {
      attempt := attempt + 1;
      var step := AttemptStep(OutcomeAt(script, attempt - 1), appId);
      if step.Finish? {
        return step.ending, attempt, delays;
      }
      if attempt >= MaxRetries {
        return Returned(UnknownResult(appId)), attempt, delays;
      }
      delays := delays + [Backoff(attempt)];
    }
  }
}
