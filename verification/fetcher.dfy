/**
 * `MetadataFetcher`: cache first, then the upstream client, then a cache
 * write, separately for the ProtonDB summary (keys `proton_{id}`) and the
 * Steam Deck category (keys `deck_{id}`).
 *
 * The clients' answers are parameters: what the client returned, or that it
 * threw. `now` is the clock when the cache is read; `written` is the clock
 * when the client has returned and `SetCached` stamps the new entry, which
 * may be seconds later (retries and their pauses happen in between).
 */
module Fetcher {
  import opened Common
  import opened Text
  import opened Domain
  import opened Cache
  import opened CacheLaws

  /** The fetcher's default time to live, one day. */
  const DefaultTtlMinutes: int := 1440

  /** What a client call produced: a value (possibly null) or an exception. */
  datatype Answer<T> = Answered(value: T) | Threw

  /** A fetcher: the cache it owns and the TTL it reads with. */
  datatype MetadataFetcher = MetadataFetcher(cache: Backend, ttlMinutes: int)

  function ProtonKey(appId: int): string {
    "proton_" + IntToString(appId)
  }

  function DeckKey(appId: int): string {
    "deck_" + IntToString(appId)
  }

  /** A fetch's value, the cache afterwards, and whether the upstream client was called. */
  datatype Fetched<T> = Fetched(value: T, cache: Backend, calledClient: bool)

  /** `GetProtonDbSummaryAsync`: a fresh cached summary, else the client's answer, cached only when it is not null. */
  function GetProtonDbSummary(f: MetadataFetcher, appId: int, now: int, written: int, answer: Answer<Option<ProtonDbResult>>)
    : (r: Fetched<Option<ProtonDbResult>>)
    ensures var read := TryGet(f.cache, ProtonKey(appId), f.ttlMinutes, now, ProtonKind);
      r.calledClient <==> read.hit.None?
    ensures r.cache.Memory? <==> f.cache.Memory?
    ensures forall slot :: slot != Slot(f.cache, ProtonKey(appId)) ==> At(r.cache, slot) == At(f.cache, slot)
    ensures r.calledClient && answer.Threw? ==>
      r.value.None? && r.cache == TryGet(f.cache, ProtonKey(appId), f.ttlMinutes, now, ProtonKind).after
    ensures var read := TryGet(f.cache, ProtonKey(appId), f.ttlMinutes, now, ProtonKind);
      read.hit.Some? ==> read.hit.value.ProtonValue? && r.value == Some(read.hit.value.proton) && r.cache == read.after
    ensures var read := TryGet(f.cache, ProtonKey(appId), f.ttlMinutes, now, ProtonKind);
      read.hit.None? && answer.Answered? ==>
        r.value == answer.value
        && r.cache == (if answer.value.Some? then Set(read.after, ProtonKey(appId), Some(ProtonValue(answer.value.value)), written)
                       else read.after)
  {
    var key := ProtonKey(appId);
    var read := TryGet(f.cache, key, f.ttlMinutes, now, ProtonKind);
    match read.hit
    case Some(v) => Fetched(Some(v.proton), read.after, false)
    case None =>
      match answer
      case Threw => Fetched(None, read.after, true)
      case Answered(result) =>
        if result.Some? then Fetched(result, Set(read.after, key, Some(ProtonValue(result.value)), written), true)
        else Fetched(result, read.after, true)
  }

  /** `GetSteamDeckCompatibilityAsync`: a fresh cached category, else the client's answer, always cached. */
  function GetSteamDeckCompatibility(f: MetadataFetcher, appId: int, now: int, written: int, answer: Answer<SteamDeckCompatibility>)
    : (r: Fetched<SteamDeckCompatibility>)
    ensures var read := TryGet(f.cache, DeckKey(appId), f.ttlMinutes, now, DeckKind);
      r.calledClient <==> read.hit.None?
    ensures r.cache.Memory? <==> f.cache.Memory?
    ensures forall slot :: slot != Slot(f.cache, DeckKey(appId)) ==> At(r.cache, slot) == At(f.cache, slot)
    ensures r.calledClient && answer.Threw? ==>
      r.value == SteamDeckCompatibility.Unknown
      && r.cache == TryGet(f.cache, DeckKey(appId), f.ttlMinutes, now, DeckKind).after
    ensures var read := TryGet(f.cache, DeckKey(appId), f.ttlMinutes, now, DeckKind);
      read.hit.Some? ==> read.hit.value.DeckValue? && r.value == read.hit.value.deck && r.cache == read.after
    ensures var read := TryGet(f.cache, DeckKey(appId), f.ttlMinutes, now, DeckKind);
      read.hit.None? && answer.Answered? ==>
        r.value == answer.value && r.cache == Set(read.after, DeckKey(appId), Some(DeckValue(answer.value)), written)
  {
    var key := DeckKey(appId);
    var read := TryGet(f.cache, key, f.ttlMinutes, now, DeckKind);
    match read.hit
    case Some(v) => Fetched(v.deck, read.after, false)
    case None =>
      match answer
      case Threw => Fetched(SteamDeckCompatibility.Unknown, read.after, true)
      case Answered(result) => Fetched(result, Set(read.after, key, Some(DeckValue(result)), written), true)
  }

  /** `TryGetCachedProtonDbSummary`: the cache alone, under the summary's key. */
  function TryGetCachedProtonDbSummary(f: MetadataFetcher, appId: int, now: int): (r: Read<Backend>)
    ensures r.hit.Some? ==> r.hit.value.ProtonValue?
  {
    TryGet(f.cache, ProtonKey(appId), f.ttlMinutes, now, ProtonKind)
  }

  /** `TryGetCachedDeckCompatibility`: the cache alone, under the category's key. */
  function TryGetCachedDeckCompatibility(f: MetadataFetcher, appId: int, now: int): (r: Read<Backend>)
    ensures r.hit.Some? ==> r.hit.value.DeckValue?
  {
    TryGet(f.cache, DeckKey(appId), f.ttlMinutes, now, DeckKind)
  }

  /** The two namespaces never meet: no summary key shares a slot with a category key, in either backend. */
  lemma KeysDisjoint(b: Backend, a1: int, a2: int)
    ensures ProtonKey(a1) != DeckKey(a2)
    ensures Slot(b, ProtonKey(a1)) != Slot(b, DeckKey(a2))
  {
    assert ProtonKey(a1)[0] == 'p' && DeckKey(a2)[0] == 'd';
    if b.Files? {
      assert CacheFileName(ProtonKey(a1))[0] == LowerChar(Sanitize(ProtonKey(a1))[0]) == 'p';
      assert CacheFileName(DeckKey(a2))[0] == LowerChar(Sanitize(DeckKey(a2))[0]) == 'd';
    }
  }

  /** Both signals for one game, with which clients were called. */
  datatype Both = Both(result: FetchResult, fetcher: MetadataFetcher, calledProton: bool, calledDeck: bool)

  /**
   * `GetBothAsync`: the summary lookup, then the category lookup, on the same fetcher; `wp` and `wd`
   * are the clocks at which each lookup writes its result.
   */
  function GetBoth(f: MetadataFetcher, appId: int, now: int, wp: int, wd: int,
                   proton: Answer<Option<ProtonDbResult>>, deck: Answer<SteamDeckCompatibility>): (r: Both)
    ensures r.calledProton <==> TryGet(f.cache, ProtonKey(appId), f.ttlMinutes, now, ProtonKind).hit.None?
    ensures r.calledDeck <==> TryGet(f.cache, DeckKey(appId), f.ttlMinutes, now, DeckKind).hit.None?
  {
    var p := GetProtonDbSummary(f, appId, now, wp, proton);
    // The summary lookup leaves the category's slot alone, so the category lookup reads what it would have read first.
    KeysDisjoint(f.cache, appId, appId);
    TryGetLocal(f.cache, p.cache, DeckKey(appId), f.ttlMinutes, now, DeckKind);
    var d := GetSteamDeckCompatibility(f.(cache := p.cache), appId, now, wd, deck);
    Both(FetchResult(d.value, p.value), f.(cache := d.cache), p.calledClient, d.calledClient)
  }

  /**
   * A summary the client returned is served from the cache, without calling the client, until its
   * TTL runs out, counted from the moment it was written, not from the moment the cache was read.
   */
  lemma SummaryIsServedFromCache(f: MetadataFetcher, appId: int, t1: int, w1: int, t2: int, w2: int,
                                 p: ProtonDbResult, later: Answer<Option<ProtonDbResult>>)
    requires ValidTime(t2) && t2 <= w1 + f.ttlMinutes * MsPerMinute <= MaxTime
    ensures var first := GetProtonDbSummary(f, appId, t1, w1, Answered(Some(p)));
      first.calledClient ==>
        var second := GetProtonDbSummary(f.(cache := first.cache), appId, t2, w2, later);
        !second.calledClient && second.value == Some(p)
  {
    var read := TryGet(f.cache, ProtonKey(appId), f.ttlMinutes, t1, ProtonKind);
    SetThenGet(read.after, ProtonKey(appId), ProtonValue(p), w1, f.ttlMinutes, t2);
  }

  /** A null summary is not cached: the next lookup, at any later time, calls the client again. */
  lemma NullSummaryIsRefetched(f: MetadataFetcher, appId: int, t1: int, w1: int, t2: int, w2: int,
                               later: Answer<Option<ProtonDbResult>>)
    requires t1 <= t2
    ensures var first := GetProtonDbSummary(f, appId, t1, w1, Answered(None));
      first.calledClient ==>
        first.cache == TryGet(f.cache, ProtonKey(appId), f.ttlMinutes, t1, ProtonKind).after
        && GetProtonDbSummary(f.(cache := first.cache), appId, t2, w2, later).calledClient
  {
    var first := GetProtonDbSummary(f, appId, t1, w1, Answered(None));
    if first.calledClient {
      MissPersists(f.cache, ProtonKey(appId), f.ttlMinutes, t1, t2, ProtonKind);
    }
  }

  /**
   * Every category the client returns, Unknown included, is served from the cache until its TTL,
   * counted from the moment it was written, runs out.
   */
  lemma CategoryIsServedFromCache(f: MetadataFetcher, appId: int, t1: int, w1: int, t2: int, w2: int,
                                  d: SteamDeckCompatibility, later: Answer<SteamDeckCompatibility>)
    requires ValidTime(t2) && t2 <= w1 + f.ttlMinutes * MsPerMinute <= MaxTime
    ensures var first := GetSteamDeckCompatibility(f, appId, t1, w1, Answered(d));
      first.calledClient ==>
        var second := GetSteamDeckCompatibility(f.(cache := first.cache), appId, t2, w2, later);
        !second.calledClient && second.value == d
  {
    var read := TryGet(f.cache, DeckKey(appId), f.ttlMinutes, t1, DeckKind);
    SetThenGet(read.after, DeckKey(appId), DeckValue(d), w1, f.ttlMinutes, t2);
  }

  /** A client that throws leaves nothing behind: the next lookup calls the client again. */
  lemma FailureIsRefetched(f: MetadataFetcher, appId: int, t1: int, w1: int, t2: int, w2: int,
                           later: Answer<SteamDeckCompatibility>)
    requires t1 <= t2
    ensures var first := GetSteamDeckCompatibility(f, appId, t1, w1, Threw);
      first.calledClient ==> GetSteamDeckCompatibility(f.(cache := first.cache), appId, t2, w2, later).calledClient
  {
    var first := GetSteamDeckCompatibility(f, appId, t1, w1, Threw);
    if first.calledClient {
      MissPersists(f.cache, DeckKey(appId), f.ttlMinutes, t1, t2, DeckKind);
    }
  }

  /** What a summary lookup returns and leaves in its slot depends on nothing but that slot. */
  lemma SummaryLookupIsLocal(b1: Backend, b2: Backend, ttlMinutes: int, appId: int, now: int, written: int,
                             answer: Answer<Option<ProtonDbResult>>)
    requires b1.Memory? <==> b2.Memory?
    requires At(b1, Slot(b1, ProtonKey(appId))) == At(b2, Slot(b2, ProtonKey(appId)))
    ensures var r1 := GetProtonDbSummary(MetadataFetcher(b1, ttlMinutes), appId, now, written, answer);
      var r2 := GetProtonDbSummary(MetadataFetcher(b2, ttlMinutes), appId, now, written, answer);
      r1.value == r2.value && r1.calledClient == r2.calledClient
      && At(r1.cache, Slot(b1, ProtonKey(appId))) == At(r2.cache, Slot(b2, ProtonKey(appId)))
  {
    var key := ProtonKey(appId);
    TryGetLocal(b1, b2, key, ttlMinutes, now, ProtonKind);
    var a1 := TryGet(b1, key, ttlMinutes, now, ProtonKind).after;
    var a2 := TryGet(b2, key, ttlMinutes, now, ProtonKind).after;
    if answer.Answered? && answer.value.Some? {
      SetLocal(a1, a2, key, Some(ProtonValue(answer.value.value)), written);
    }
  }

  /** What a category lookup returns and leaves in its slot depends on nothing but that slot. */
  lemma CategoryLookupIsLocal(b1: Backend, b2: Backend, ttlMinutes: int, appId: int, now: int, written: int,
                              answer: Answer<SteamDeckCompatibility>)
    requires b1.Memory? <==> b2.Memory?
    requires At(b1, Slot(b1, DeckKey(appId))) == At(b2, Slot(b2, DeckKey(appId)))
    ensures var r1 := GetSteamDeckCompatibility(MetadataFetcher(b1, ttlMinutes), appId, now, written, answer);
      var r2 := GetSteamDeckCompatibility(MetadataFetcher(b2, ttlMinutes), appId, now, written, answer);
      r1.value == r2.value && r1.calledClient == r2.calledClient
      && At(r1.cache, Slot(b1, DeckKey(appId))) == At(r2.cache, Slot(b2, DeckKey(appId)))
  {
    var key := DeckKey(appId);
    TryGetLocal(b1, b2, key, ttlMinutes, now, DeckKind);
    var a1 := TryGet(b1, key, ttlMinutes, now, DeckKind).after;
    var a2 := TryGet(b2, key, ttlMinutes, now, DeckKind).after;
    if answer.Answered? {
      SetLocal(a1, a2, key, Some(DeckValue(answer.value)), written);
    }
  }

  /**
   * `GetBothAsync` starts the two lookups together; because their namespaces are disjoint, running
   * them in either order gives the same two values, the same client calls and the same cache.
   */
  lemma LookupsCommute(f: MetadataFetcher, appId: int, now: int, wp: int, wd: int,
                       proton: Answer<Option<ProtonDbResult>>, deck: Answer<SteamDeckCompatibility>)
    ensures var p1 := GetProtonDbSummary(f, appId, now, wp, proton);
      var d1 := GetSteamDeckCompatibility(f.(cache := p1.cache), appId, now, wd, deck);
      var d2 := GetSteamDeckCompatibility(f, appId, now, wd, deck);
      var p2 := GetProtonDbSummary(f.(cache := d2.cache), appId, now, wp, proton);
      p1.value == p2.value && d1.value == d2.value
      && p1.calledClient == p2.calledClient && d1.calledClient == d2.calledClient
      && d1.cache == p2.cache
  {
    var ps, ds := Slot(f.cache, ProtonKey(appId)), Slot(f.cache, DeckKey(appId));
    KeysDisjoint(f.cache, appId, appId);
    var p1 := GetProtonDbSummary(f, appId, now, wp, proton);
    var d1 := GetSteamDeckCompatibility(f.(cache := p1.cache), appId, now, wd, deck);
    var d2 := GetSteamDeckCompatibility(f, appId, now, wd, deck);
    var p2 := GetProtonDbSummary(f.(cache := d2.cache), appId, now, wp, proton);
    SummaryLookupIsLocal(f.cache, d2.cache, f.ttlMinutes, appId, now, wp, proton);
    CategoryLookupIsLocal(p1.cache, f.cache, f.ttlMinutes, appId, now, wd, deck);
    forall slot ensures At(d1.cache, slot) == At(p2.cache, slot) {
      if slot == ps {
        assert At(d1.cache, slot) == At(p1.cache, slot);
      } else if slot == ds {
        assert At(p2.cache, slot) == At(d2.cache, slot);
      } else {
        assert At(d1.cache, slot) == At(f.cache, slot) == At(p2.cache, slot);
      }
    }
    AtExtensional(d1.cache, p2.cache);
  }

  /**
   * Two successive `GetBothAsync` calls call each upstream at most once between them, when the first
   * calls get a non-null summary and a category and the second comes within the TTL of both writes:
   * whatever the first call fetched, the second serves from the cache.
   */
  lemma GetBothTwiceCallsEachUpstreamOnce(f: MetadataFetcher, appId: int, t1: int, wp1: int, wd1: int,
                                          t2: int, wp2: int, wd2: int,
                                          p: ProtonDbResult, d: SteamDeckCompatibility,
                                          proton2: Answer<Option<ProtonDbResult>>, deck2: Answer<SteamDeckCompatibility>)
    requires ValidTime(t2)
    requires t2 <= wp1 + f.ttlMinutes * MsPerMinute <= MaxTime
    requires t2 <= wd1 + f.ttlMinutes * MsPerMinute <= MaxTime
    ensures var first := GetBoth(f, appId, t1, wp1, wd1, Answered(Some(p)), Answered(d));
      var second := GetBoth(first.fetcher, appId, t2, wp2, wd2, proton2, deck2);
      (first.calledProton ==> !second.calledProton && second.result.proton == first.result.proton)
      && (first.calledDeck ==> !second.calledDeck && second.result.deck == first.result.deck)
  {
    var pk, dk := ProtonKey(appId), DeckKey(appId);
    KeysDisjoint(f.cache, appId, appId);
    var p1 := GetProtonDbSummary(f, appId, t1, wp1, Answered(Some(p)));
    var d1 := GetSteamDeckCompatibility(f.(cache := p1.cache), appId, t1, wd1, Answered(d));
    var f1 := f.(cache := d1.cache);
    var p2 := GetProtonDbSummary(f1, appId, t2, wp2, proton2);
    if p1.calledClient {
      SummaryIsServedFromCache(f, appId, t1, wp1, t2, wp2, p, proton2);
      SummaryLookupIsLocal(d1.cache, p1.cache, f.ttlMinutes, appId, t2, wp2, proton2);
    }
    if d1.calledClient {
      CategoryIsServedFromCache(f.(cache := p1.cache), appId, t1, wd1, t2, wd2, d, deck2);
      CategoryLookupIsLocal(p2.cache, d1.cache, f.ttlMinutes, appId, t2, wd2, deck2);
    }
  }
}
