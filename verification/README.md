# SteamDeckProtonDB metadata layer in Dafny

A Dafny model of the compatibility-metadata core of the Playnite plugin
SteamDeckProtonDB. The plugin fetches two signals for each game: the ProtonDB
community tier and the Steam Deck compatibility category. It caches them with
a time to live and maps them to categories, tags, features and a link. Then it
writes those into the game record, subject to the user's settings.

The model covers these parts:

- **Cache** (`cache.dfy`, `cachelaws.dfy`): `CacheEntry.IsExpired` and the
  in-memory and file-backed `ICacheManager` backends. It includes the
  file-name sanitiser. The laws both backends share are stated once, over
  either backend.
- **Upstream clients**:
  - `protondb.dfy` covers `ProtonDbClient.GetGameSummaryAsync`, which uses
    `ParseJsonSummary`, `ParseTier` and the fallback URL.
  - `json.dfy` covers `GetNestedString`.
  - `fieldscan.dfy` covers the raw-text field regex.
  - `steamdeck.dfy` covers `LocalSteamDeckSource.GetCompatibilityAsync`,
    with its keyword classifier, and `WebSteamDeckSource`.
  - `retry.dfy` holds what the two retry loops share.
- **Rate limiting** (`ratelimiter.dfy`): `RateGate`, the retry and
  circuit-breaker predicates of the resilience pipelines, and the
  gate-then-pipeline order of `ExecuteProtonDbAsync` /
  `ExecuteSteamStoreAsync`.
- **Orchestration** (`fetcher.dfy`, `processor.dfy`, `updater.dfy`):
  - `MetadataFetcher`: cache first, then the client, then a cache write.
  - `MetadataProcessor.Map`.
  - `MetadataUpdater.Apply`: find-or-create insertion into the library
    database and the game record.
- **Settings** (`settings.dfy`): the defaults, `VerifySettings` and
  `BeginEdit`/`CancelEdit`.

Abstractions used throughout:

- Time is an integer count of milliseconds since `DateTime.MinValue`. It is
  passed in wherever the source reads `DateTime.UtcNow`: a fetch takes one
  clock reading for the cache read and another for the cache write.
- The cache directory is keyed by file name with ASCII letters lower-cased,
  since Windows compares file names ignoring case.
- A null reference is `Option.None`.
- A JSON document is a small recursive datatype: what the deserialiser
  returned.
- The directory of cache files is a map from file name to content.
- The network is a scripted sequence of outcomes: a response with a status
  and a body, a network fault, or a cancellation. A request past the end of
  the script faults.
- Each delay is returned as a list of pause lengths; the model never waits.
- Strings are sequences of characters. Case mapping covers the ASCII letters
  only.

## Model

| member | source | states |
|---|---|---|
| Cache.ExpiryOf | SteamDeckProtonDb/CacheManager.cs:14 | An entry is fresh only while `now` is at most the write time plus the TTL in minutes, and expired once `now` is past it. A deadline outside `DateTime`'s range is a separate outcome, since `AddMinutes` throws. |
| Cache.NegativeTtlNeverFresh | SteamDeckProtonDb/CacheManager.cs:14 | Under a negative TTL an entry is never fresh at or after its write time. |
| Cache.MemoryTryGet | SteamDeckProtonDb/CacheManager.cs:150-182 | A hit happens exactly when the key is non-empty and present, holds the requested type and is fresh. The hit is the stored value. Other keys keep their entries. The key's own entry is kept or removed, never altered. |
| Cache.MemorySet | SteamDeckProtonDb/CacheManager.cs:184-203 | An empty key or a null value changes nothing. Otherwise the key holds the value stamped with `now`, and every other key is untouched. |
| Cache.MemoryClear | SteamDeckProtonDb/CacheManager.cs:205-218 | No key remains. |
| Cache.Sanitize | SteamDeckProtonDb/CacheManager.cs:140 | Keeps the length. Each character becomes `_` if it is one of `< > : " / \ \| ? *`; otherwise it is kept. |
| Cache.SanitizeClean | SteamDeckProtonDb/CacheManager.cs:140 | A sanitised name has no forbidden character, and sanitising it again changes nothing. |
| Cache.SanitizeCollides | SteamDeckProtonDb/CacheManager.cs:140-141 | Two different keys (`a<b`, `a>b`) map to the same file name. |
| Cache.FileTryGet | SteamDeckProtonDb/CacheManager.cs:40-84 | A hit happens exactly when the key is non-empty and its file holds a readable, fresh entry of the requested type; the hit is that entry's value. A file that deserialises to null, or holds an expired entry of the requested type, is deleted. Every other miss leaves the directory exactly as it was. |
| Cache.FileSet | SteamDeckProtonDb/CacheManager.cs:86-113 | An empty key or a null value changes nothing. Otherwise the key's file holds the value stamped with `now`, and every other file is untouched. |
| Cache.FileClear | SteamDeckProtonDb/CacheManager.cs:115-135 | Exactly the files whose names end in `.cache.json`, in any letter case, are deleted; all others stay as they were. |
| Cache.SanitizeLower | SteamDeckProtonDb/CacheManager.cs:140 | Sanitising and lower-casing commute, since no replaced character is a letter. |
| Cache.CacheFileName | SteamDeckProtonDb/CacheManager.cs:137-142 | The file name has one character per key character, none of them forbidden, followed by `.cache.json`. Letters are lower-cased because the file system ignores case. `CacheFileNameHasSuffix`, `CollidingKeysShareAFile` and `CaseVariantsShareAFile` state what that means for reads and `Clear`. |
| Cache.TryGet | SteamDeckProtonDb/CacheManager.cs:17-22 | For either backend, a hit has the requested type. The backend kind is kept, and only the key's own slot can change. |
| Cache.Set | SteamDeckProtonDb/CacheManager.cs:17-22 | For either backend, the backend kind is kept and only the key's own slot can change. |
| Cache.TryGetLocal | SteamDeckProtonDb/CacheManager.cs:40-84 | A read's answer, and what it leaves in the key's slot, depend only on that slot. |
| Cache.SetLocal | SteamDeckProtonDb/CacheManager.cs:86-113 | What a write leaves in the key's slot does not depend on what was there before. |
| CacheLaws.CacheFileNameHasSuffix | SteamDeckProtonDb/CacheManager.cs:121-141 | Every cache file name ends in `.cache.json`, also after case folding, so `Clear` reaches it. |
| CacheLaws.SetThenGet | SteamDeckProtonDb/CacheManager.cs:150-203 | In either backend, a value written under a non-empty key is read back unchanged, with no side effect, while its TTL has not run out. |
| CacheLaws.SetOverwrites | SteamDeckProtonDb/CacheManager.cs:196 | A second write to a key completely replaces the first. |
| CacheLaws.NullSetIsIgnored | SteamDeckProtonDb/CacheManager.cs:186-189 | A write with an empty key or a null value changes nothing, and a key it did not store still reads as a miss. |
| CacheLaws.MissingKeyReadsNothing | SteamDeckProtonDb/CacheManager.cs:43-56 | Reading the empty key, or a key with nothing stored, misses and changes nothing. |
| CacheLaws.ExpiredIsEvictedForGood | SteamDeckProtonDb/CacheManager.cs:64-71 | Reading an expired entry misses and removes it. Every later read of that key misses, whatever TTL, time or type it uses. Reads of keys in other slots answer as before. |
| CacheLaws.MemoryOtherTypeIsKept | SteamDeckProtonDb/CacheManager.cs:162 | The in-memory backend misses on an entry of another type and keeps it. |
| CacheLaws.ClearForgetsEverything | SteamDeckProtonDb/CacheManager.cs:115-135 | After `Clear`, every key misses and the read changes nothing. |
| Cache.Clear | SteamDeckProtonDb/CacheManager.cs:21 | Has no contract of its own. It dispatches `ICacheManager.Clear` to `MemoryClear` or `FileClear`, whose rows give their contracts, and `ClearForgetsEverything` states that afterwards every key misses in either backend. |
| CacheLaws.CollidingKeysShareAFile | SteamDeckProtonDb/CacheManager.cs:137-142 | Keys that sanitise alike share a file: a write under one is read back under the other. |
| CacheLaws.CaseVariantsShareAFile | SteamDeckProtonDb/CacheManager.cs:137-142 | Keys that differ only in letter case name the same file on a case-insensitive file system: a write under one is read back under the other. |
| CacheLaws.MissPersists | SteamDeckProtonDb/CacheManager.cs:40-84 | With nothing written in between, a miss stays a miss at any later time. |
| Json.Lookup | SteamDeckProtonDb/ProtonDbClient.cs:166-171 | Finds the value of the first member whose name equals the key ignoring case, and nothing when no name matches. |
| Json.TopLevelPriority | SteamDeckProtonDb/ProtonDbClient.cs:164-177 | The top-level pass answers with the first key, in priority order, whose first matching member is not null. |
| Json.NullFallsThrough | SteamDeckProtonDb/ProtonDbClient.cs:171 | A key whose first matching member is null passes on to the next key. |
| Json.TopLevelFirst | SteamDeckProtonDb/ProtonDbClient.cs:164-179 | On an object, a top-level answer wins over anything nested. |
| Json.NestedSound | SteamDeckProtonDb/ProtonDbClient.cs:180-204 | Every answer of the recursive search is the top-level answer of some object reachable through members and array items. |
| Json.NestedComplete | SteamDeckProtonDb/ProtonDbClient.cs:180-204 | When some reachable object has a top-level answer, the search answers. |
| Json.GetNestedStringSpec | SteamDeckProtonDb/ProtonDbClient.cs:159-207 | An empty key list gives null. The search answers exactly when some reachable object has a top-level answer, and its answer is one of those. |
| Json.GetNestedStringIsFirstAnswer | SteamDeckProtonDb/ProtonDbClient.cs:159-207 | The search returns the first of all top-level answers listed in pre-order: an object's own answer, then its members' subtrees in member order, an array's items in item order. Null when there is none. |
| Json.GetNestedString | SteamDeckProtonDb/ProtonDbClient.cs:159-207 | Has no contract of its own. `GetNestedStringSpec`, `GetNestedStringIsFirstAnswer`, `TopLevelFirst`, `NestedSound` and `NestedComplete` specify it against the independent reference definitions. |
| Json.EarlierSiblingWins | SteamDeckProtonDb/ProtonDbClient.cs:180-187 | For `{"a":{"tier":"gold"},"b":{"tier":"bronze"}}` the search for `tier` returns "gold", the earlier member's answer. |
| FieldScan.MatchAtIsFieldAt | SteamDeckProtonDb/ProtonDbClient.cs:136 | The left-to-right scan at a position agrees with the pattern `"NAME"\s*:\s*"([^"]+)"` (name case ignored) read declaratively. |
| FieldScan.FindIsLeftmostMatch | SteamDeckProtonDb/ProtonDbClient.cs:136-141 | The search returns the capture at the leftmost position where the pattern matches, and nothing when it matches nowhere. |
| FieldScan.FindCaptureShape | SteamDeckProtonDb/ProtonDbClient.cs:136-141 | A capture is a non-empty, quote-free piece of the scanned text. |
| FieldScan.Find | SteamDeckProtonDb/ProtonDbClient.cs:136-141 | Has no contract of its own. `FindIsLeftmostMatch` specifies it against the declarative reading of the pattern, and `FindCaptureShape` gives the shape of its capture. |
| ProtonDb.TierOfKeyExact | SteamDeckProtonDb/ProtonDbClient.cs:228-237 | The switch gives a known tier exactly for that tier's lower-case name. |
| ProtonDb.ParseTierExact | SteamDeckProtonDb/ProtonDbClient.cs:224-238 | A known tier comes out exactly when the trimmed, lower-cased input is its name. Null, blank or anything else gives Unknown. |
| ProtonDb.ParseTierRoundTrip | SteamDeckProtonDb/ProtonDbClient.cs:224-238 | A tier's enum name, in any letter case and padded with white space on either side, parses back to that tier. |
| ProtonDb.ParseTier | SteamDeckProtonDb/ProtonDbClient.cs:224-238 | A known tier comes only from a present string whose trimmed, lower-cased form is that tier's name. `ParseTierExact` gives the converse and `ParseTierRoundTrip` the round trip. |
| ProtonDb.ParseJsonSummary | SteamDeckProtonDb/ProtonDbClient.cs:115-157 | Has no contract of its own. `SummaryOfNoObject` covers the blank and non-object bodies, `SummaryRoundTrip` the object read, and `SummaryFallsBackToText` and `SummaryFallsBackToLeftmostTier` the raw-text fallback. |
| ProtonDb.FallbackUrl | SteamDeckProtonDb/ProtonDbClient.cs:61 | Has no contract of its own. `AttemptStep` and `SuccessWithoutObjectIsUnknown` state where it stands in for a missing URL. |
| ProtonDb.SummaryOfNoObject | SteamDeckProtonDb/ProtonDbClient.cs:115-157 | A blank body, or one that does not deserialise to an object, gives Unknown with no URL. |
| ProtonDb.SummaryRoundTrip | SteamDeckProtonDb/ProtonDbClient.cs:127-149 | An object holding a tier's key and a profile URL parses back to that tier and URL. The exception is the empty case (Unknown with an empty URL), which goes to the text scan. |
| ProtonDb.SummaryFallsBackToText | SteamDeckProtonDb/ProtonDbClient.cs:131-147 | When the object's keys give no known tier and a null or empty URL, the text decides if either field matches it: the tier parsed from the leftmost `"tier"` capture, and the leftmost `"url"` capture. If neither matches, the result is Unknown with the object's URL. |
| ProtonDb.SummaryFallsBackToLeftmostTier | SteamDeckProtonDb/ProtonDbClient.cs:131-147 | Under the same condition, a text whose leftmost `"tier"` field holds `v` gives the tier `v` names, with the leftmost `"url"` capture as the URL. |
| ProtonDb.AttemptStep | SteamDeckProtonDb/ProtonDbClient.cs:67-103 | A 2xx returns the parsed tier with the parsed URL, or the fallback URL `https://www.protondb.com/app/{appId}` when none was parsed. A 4xx gives Unknown with the fallback URL. Cancellation, and only cancellation, escapes. A retry happens exactly on a network fault or a status that is neither 2xx nor 4xx. Every value returned carries a URL. |
| ProtonDb.SuccessWithoutObjectIsUnknown | SteamDeckProtonDb/ProtonDbClient.cs:72-87 | A 2xx whose body is blank or not a JSON object gives Unknown with the fallback URL. |
| ProtonDb.SuccessRoundTrip | SteamDeckProtonDb/ProtonDbClient.cs:72-87 | A 2xx carrying a summary object returns exactly that object's tier and profile URL. |
| ProtonDb.GetGameSummary | SteamDeckProtonDb/ProtonDbClient.cs:55-113 | See the breakdown below the table. |
| Retry.BackoffDoubles | SteamDeckProtonDb/ProtonDbClient.cs:111 | The first pause is 200 ms and each later pause doubles the previous one. |
| Retry.Backoffs | SteamDeckProtonDb/SteamDeckSource.cs:95 | The `n` pauses before the first `n` retries are 200·2^(k−1) ms for k = 1..n. |
| SteamDeck.ClassifyVerified | SteamDeckProtonDb/SteamDeckSource.cs:51-83 | A body is Verified exactly when it is non-blank and either has a deck mention followed on one line by "verified", or has no earlier keyword and a field value containing "verified". The literal "steam deck verified" test is proved redundant. |
| SteamDeck.ClassifyPlayable | SteamDeckProtonDb/SteamDeckSource.cs:51-83 | A body is Playable exactly when it is non-blank, the Verified pattern does not fire, and it contains "playable". |
| SteamDeck.FieldStageNeverPlayable | SteamDeckProtonDb/SteamDeckSource.cs:72-80 | The field stage can never give Playable. It gives Unsupported only through a "borked" value. |
| SteamDeck.ClassifyBlank | SteamDeckProtonDb/SteamDeckSource.cs:49 | A blank body is Unknown. |
| SteamDeck.Classify | SteamDeckProtonDb/SteamDeckSource.cs:51-83 | Has no contract of its own. `ClassifyVerified`, `ClassifyPlayable`, `FieldStageNeverPlayable` and `ClassifyBlank` specify it against the reference conditions. |
| SteamDeck.AttemptStep | SteamDeckProtonDb/SteamDeckSource.cs:39-92 | Only a network fault is retried. A 4xx gives Unknown; any other response, 5xx included, returns the classification of its body. Cancellation, and only cancellation, escapes. |
| SteamDeck.ResponseVerified | SteamDeckProtonDb/SteamDeckSource.cs:43-83 | A non-4xx response ends the call as Verified exactly when its non-blank body has a deck mention followed on one line by "verified", or the field stage says Verified. |
| SteamDeck.ResponsePlayable | SteamDeckProtonDb/SteamDeckSource.cs:43-83 | A non-4xx response ends the call as Playable exactly when its non-blank body contains "playable" and the Verified pattern does not fire. |
| SteamDeck.GetCompatibility | SteamDeckProtonDb/SteamDeckSource.cs:29-97 | See the breakdown below the table. |
| SteamDeck.WebCompatibility | SteamDeckProtonDb/SteamDeckSource.cs:103-106 | The result is Unknown for every id. |
| RateLimiter.NewGate | SteamDeckProtonDb/RateLimiterService.cs:155-158 | A positive interval is kept and a non-positive one becomes zero. The gate starts at time zero. |
| RateLimiter.Delay | SteamDeckProtonDb/RateLimiterService.cs:165-174 | There is no pause exactly when `last + interval` has been reached. Otherwise the pause ends exactly there. |
| RateLimiter.WaitAsync | SteamDeckProtonDb/RateLimiterService.cs:160-181 | See the breakdown below the table. |
| RateLimiter.ZeroIntervalNeverDelays | SteamDeckProtonDb/RateLimiterService.cs:157 | With a clamped non-positive interval no wait ever pauses. |
| RateLimiter.AdmissionsSpaced | SteamDeckProtonDb/RateLimiterService.cs:160-181 | Over any run of waits on one gate, the first admission is at or after `last + interval`. Consecutive admissions are at least the interval apart, even with cancelled waits in between. |
| RateLimiter.BreakerFailuresAreRetried | SteamDeckProtonDb/RateLimiterService.cs:67-83 | Every breaker failure is also retried. The outcomes retried without counting as failures are exactly timeouts and 429. |
| RateLimiter.ClientErrorsPassThrough | SteamDeckProtonDb/RateLimiterService.cs:70-72 | A 4xx status other than 429 is neither retried nor counted by the breaker. |
| RateLimiter.RetryHandles | SteamDeckProtonDb/RateLimiterService.cs:67-72 | Has no contract of its own. `BreakerFailuresAreRetried` relates it to the breaker's predicate, and `ClientErrorsPassThrough` shows what it leaves alone. |
| RateLimiter.BreakerCounts | SteamDeckProtonDb/RateLimiterService.cs:81-83 | Has no contract of its own. `BreakerFailuresAreRetried` shows it is contained in the retry predicate and differs from it by timeouts and 429, and `ClientErrorsPassThrough` shows it ignores other 4xx statuses. |
| RateLimiter.RunPipeline | SteamDeckProtonDb/RateLimiterService.cs:61-73 | At most 1 + 3 attempts are made, and every attempt before the last was retryable. Stopping early means the last outcome was not retryable. |
| RateLimiter.NewService | SteamDeckProtonDb/RateLimiterService.cs:34-42 | The constructor fails exactly when an interval is zero, because its log line divides by it. Otherwise it makes one clamped gate per upstream. |
| RateLimiter.Execute | SteamDeckProtonDb/RateLimiterService.cs:44-54 | The upstream's gate is passed once, before the pipeline. A cancelled wait makes no attempt and changes nothing. The other upstream's gate is never touched. The result is the pipeline's. |
| Fetcher.GetProtonDbSummary | SteamDeckProtonDb/SteamDeckProtonDbProvider.cs:206-228 | The client is called exactly when the cache misses. Only the key's slot changes. If the client throws, the result is null and nothing is written. A hit returns the cached summary and changes only what the read changed. On a miss the client's answer is returned, and it is written under the key, stamped with the time of the write, exactly when it is not null. |
| Fetcher.GetSteamDeckCompatibility | SteamDeckProtonDb/SteamDeckProtonDbProvider.cs:230-249 | The client is called exactly when the cache misses. Only the key's slot changes. If the client throws, the result is Unknown and nothing is written. A hit returns the cached category and changes only what the read changed. On a miss the client's answer, Unknown included, is returned and always written under the key, stamped with the time of the write. |
| Fetcher.TryGetCachedProtonDbSummary | SteamDeckProtonDb/SteamDeckProtonDbProvider.cs:251-255 | A hit is always a ProtonDB summary. |
| Fetcher.TryGetCachedDeckCompatibility | SteamDeckProtonDb/SteamDeckProtonDbProvider.cs:257-261 | A hit is always a Steam Deck category. |
| Fetcher.KeysDisjoint | SteamDeckProtonDb/SteamDeckProtonDbProvider.cs:208-232 | `proton_{id}` and `deck_{id}` keys never coincide. In the file backend their file names never coincide either. |
| Fetcher.SummaryIsServedFromCache | SteamDeckProtonDb/SteamDeckProtonDbProvider.cs:209-221 | A fetched non-null summary is returned from the cache, without a client call, until its TTL runs out, counted from the moment it was written. |
| Fetcher.NullSummaryIsRefetched | SteamDeckProtonDb/SteamDeckProtonDbProvider.cs:216-221 | A null summary is not cached: the next lookup calls the client again. |
| Fetcher.CategoryIsServedFromCache | SteamDeckProtonDb/SteamDeckProtonDbProvider.cs:233-242 | Every fetched category, Unknown included, is returned from the cache until its TTL runs out, counted from the moment it was written. |
| Fetcher.FailureIsRefetched | SteamDeckProtonDb/SteamDeckProtonDbProvider.cs:244-248 | After the client throws, the next lookup calls it again. |
| Fetcher.LookupsCommute | SteamDeckProtonDb/SteamDeckProtonDbProvider.cs:263-269 | The two lookups `GetBothAsync` starts together give the same values, client calls and final cache in either order. |
| Fetcher.GetBothTwiceCallsEachUpstreamOnce | SteamDeckProtonDb/SteamDeckProtonDbProvider.cs:263-269 | Within the TTL of both writes, a second `GetBothAsync` calls neither upstream the first one fetched from, and returns the same values. |
| Fetcher.GetBoth | SteamDeckProtonDb/SteamDeckProtonDbProvider.cs:263-269 | The ProtonDB client is called exactly when the summary is not in the cache. The Steam client is called exactly when the category was not in the cache before the summary lookup, because that lookup leaves the category's entry alone. |
| Processor.MapSpec | SteamDeckProtonDb/SteamDeckProtonDbProvider.cs:284-354 | See the breakdown below the table. |
| Processor.MapCounts | SteamDeckProtonDb/SteamDeckProtonDbProvider.cs:284-354 | There are two categories and one tag and feature for each known signal, and no list repeats an entry. |
| Processor.MapNothingKnown | SteamDeckProtonDb/SteamDeckProtonDbProvider.cs:324-331 | With neither signal known, the lists are empty and there is no link. |
| Processor.DeckTagIsLowerName | SteamDeckProtonDb/SteamDeckProtonDbProvider.cs:296-319 | Each literal deck tag is `steamdeck:` followed by the lower-cased category name. |
| Processor.Map | SteamDeckProtonDb/SteamDeckProtonDbProvider.cs:284-354 | The link comes only from a summary with a known tier, and it is that summary's URL. `MapSpec`, `MapCounts` and `MapNothingKnown` specify the lists. |
| Updater.FindByName | SteamDeckProtonDb/SteamDeckProtonDbProvider.cs:414 | Finds an item of that name in the pool, and nothing exactly when no item has the name. |
| Updater.FindByNameIsFirst | SteamDeckProtonDb/SteamDeckProtonDbProvider.cs:414 | The item found is the first item of that name in the pool: no earlier item carries the name, as with `FirstOrDefault`. |
| Updater.AddOne | SteamDeckProtonDb/SteamDeckProtonDbProvider.cs:414-426 | A new item is appended only when no item of that name exists. Afterwards the name is found. |
| Updater.AddAllIdempotent | SteamDeckProtonDb/SteamDeckProtonDbProvider.cs:442-460 | Running an add loop twice gives the same pool and list as running it once. |
| Updater.AddAllItems | SteamDeckProtonDb/SteamDeckProtonDbProvider.cs:445-451 | An add loop keeps the pool's items in place and appends only items named in its input. |
| Updater.AddAllIds | SteamDeckProtonDb/SteamDeckProtonDbProvider.cs:423-426 | An add loop keeps the game's ids in place, and a null category list stays null. |
| Updater.AddAllNewIds | SteamDeckProtonDb/SteamDeckProtonDbProvider.cs:453-459 | Every id an add loop appends to the game is the id of the item one of its names finds. |
| Updater.AddAllSettles | SteamDeckProtonDb/SteamDeckProtonDbProvider.cs:442-460 | After an add loop, every name it was given has an item whose id the game lists, or would list if the list existed. |
| Updater.AddOneFresh | SteamDeckProtonDb/SteamDeckProtonDbProvider.cs:414-426 | When every id is below the counter, a pass stays that way. A pass that creates an item appends the new id to the game's list, or creates the list with it for tags and features. |
| Updater.AddAllFresh | SteamDeckProtonDb/SteamDeckProtonDbProvider.cs:442-460 | When every id is below the counter, an add loop stays that way. Every item it creates has an id the game did not list before and lists afterwards, wherever the list exists. For tags and features the list always exists after the loop. |
| Updater.ApplyNoOp | SteamDeckProtonDb/SteamDeckProtonDbProvider.cs:371-389 | A null game, a null mapping or a dry run changes neither the game nor the database. |
| Updater.Apply | SteamDeckProtonDb/SteamDeckProtonDbProvider.cs:369-516 | A present game stays present and an absent one absent, and the id counter never goes back. `ApplyNoOp`, `ApplyIdempotent`, `ApplyRespectsSwitches`, `ApplyAddsEverything` and `ApplyKeepsFresh` specify the rest. |
| Updater.ApplyKeepsFresh | SteamDeckProtonDb/SteamDeckProtonDbProvider.cs:392-516 | When every id in the database and the game is below the counter, `Apply` keeps it so. Every category, tag or feature it creates gets an id the game did not list before and lists afterwards. Tags and features always have a list to go in; a category goes in only where the game already has a list. |
| Updater.ApplyIdempotent | SteamDeckProtonDb/SteamDeckProtonDbProvider.cs:369-516 | Applying a mapping twice leaves the game and the database exactly as applying it once. |
| Updater.AddCategoriesRespectsSwitches | SteamDeckProtonDb/SteamDeckProtonDbProvider.cs:392-428 | See the breakdown below the table. |
| Updater.ApplyRespectsSwitches | SteamDeckProtonDb/SteamDeckProtonDbProvider.cs:392-516 | With tags off, the game's tags and the tag pool are unchanged; likewise features, and the links with the link switch off. New category items carry only names the switches allow. |
| Updater.ApplyAddsEverything | SteamDeckProtonDb/SteamDeckProtonDbProvider.cs:392-516 | Everything the switches allow is present afterwards: allowed categories, tags and features have items whose ids the game lists. The ProtonDB link is present for a non-empty address. |
| Updater.MapCategoriesAreGated | SteamDeckProtonDb/SteamDeckProtonDbProvider.cs:398-399 | Every category `Map` produces is a Steam Deck or a ProtonDB category. |
| Updater.NullSettingsChangeNothing | SteamDeckProtonDb/SteamDeckProtonDbProvider.cs:401-411 | Without a settings object, applying any mapping `Map` produces changes neither the game nor the database. |
| Settings.Defaults | SteamDeckProtonDb/SteamDeckProtonDbSettings.cs:16-22 | All four switches are on, the TTL is 1440 minutes, the file cache is used, and the API URL is the client's summary template. |
| Settings.VerifySettings | SteamDeckProtonDb/SteamDeckProtonDbSettings.cs:93-98 | The verdict is OK exactly when there are no errors, which is exactly when the TTL is non-negative. Otherwise there is exactly one error message. |
| Settings.DefaultsAreValid | SteamDeckProtonDb/SteamDeckProtonDbSettings.cs:16-22 | The defaults pass validation. |
| Settings.BeginEdit | SteamDeckProtonDb/SteamDeckProtonDbSettings.cs:62-65 | The snapshot is the current values, which are unchanged. |
| Settings.CancelRestoresSnapshot | SteamDeckProtonDb/SteamDeckProtonDbSettings.cs:62-79 | `BeginEdit`, any setter calls, then `CancelEdit` restores all seven values seen at `BeginEdit`. |
| Settings.CancelWithoutBeginIsNoOp | SteamDeckProtonDb/SteamDeckProtonDbSettings.cs:69 | Without a snapshot, `CancelEdit` changes nothing. |
| Settings.CancelTwice | SteamDeckProtonDb/SteamDeckProtonDbSettings.cs:67-79 | The snapshot outlives a cancel: a later cancel restores the same values. |
| Settings.CancelEdit | SteamDeckProtonDb/SteamDeckProtonDbSettings.cs:67-79 | With a snapshot, all seven current values become the snapshot's, and the snapshot is kept. Without one, nothing changes. |

Breakdown of the longer contracts:

- **ProtonDb.GetGameSummary**
  - A non-positive id throws before any request.
  - Otherwise it makes 1 to 3 requests, and every request but the last was retried.
  - The last request's outcome decides the result. If it too would be retried, the result is Unknown with the fallback URL after 3 requests.
  - The pauses are the doubling schedule.
  - A first 2xx or 4xx means one request; a 2xx returns what that step parsed.
  - Every value returned carries a URL.
- **SteamDeck.GetCompatibility**
  - A non-positive id gives Unknown without a request.
  - Otherwise it makes 1 to 3 requests, and all but the last faulted.
  - The last non-fault outcome decides the result. Three faults give Unknown.
  - The pauses are the doubling schedule.
  - A first response means one request.
  - The call never throws the argument exception.
- **RateLimiter.WaitAsync**
  - The caller is admitted exactly when not cancelled, or when cancelled during a pause that was not needed.
  - A cancelled wait leaves the gate unchanged.
  - An admission sets `last` to the time after the pause, which is at or after `last + interval`.
- **Processor.MapSpec**
  - The categories, tags and features are the deck's pair, tag and feature when the deck is known, followed by the tier's when the tier is known.
  - The URL is the summary's, and only with a known tier.
  - The app id plays no part.
- **Updater.AddCategoriesRespectsSwitches**
  - The category pool gains only names the switches allow.
  - A null category list stays null.
  - Every category id the game gains is that of an allowed name's item.

## Left out

- Real HTTP, `DataContractJsonSerializer` and file I/O are replaced by the scripted network, the JSON datatype and the file map. Each cached value is either a ProtonDB summary or a Steam Deck category, and a read names the type it wants.
- The request URLs (`string.Format` of the endpoint template, the `appdetails` URL) are not modelled, because only the responses matter to the behaviour. The fallback URL is modelled.
- `lock`, `SemaphoreSlim` and `Task.WhenAll` are left out: all operations run one after another. `LookupsCommute` shows that the two lookups `GetBothAsync` runs together give the same result in either order.
- The Polly circuit breaker's state machine, `FailureRatio = 0.5`, the sampling window, jitter and timeout enforcement are left out. Only the retry and breaker predicates, the configured constants and the retry count are modelled.
- RateLimiter.RunPipeline: the breaker's open state and the pauses between retries are not modelled. The pipeline always attempts.
- The doubling pauses are returned, not awaited. A cancellation that arrives during a pause, rather than during a request, is not modelled.
- Cancellation reaches a client as a scripted outcome of one request. An exception surfacing as `OperationCanceledException` without the caller's token being cancelled counts as a network fault.
- Settings persistence (the constructor's load and `EndEdit`) and the settings view are left out, as is the Playnite host wiring (`SteamDeckProtonDb.cs`, the provider's `GetLinks`/`GetTags`/`GetFeatures`).
- `MetadataUpdaterHelpers.RemovePluginTags` / `RemovePluginFeatures` are not part of this model; their source is not available.
- Updater.Apply: the `EnableFeatures` switch it reads is not declared on the settings class, so it is an extra boolean input, effective only when a settings object exists.
- Updater.Apply: `Game.Categories` is treated as the game's own list of category ids. Playnite's `Category`, `Tag` and `GameFeature` ids are fresh `Guid`s, modelled as a counter shared by the three pools. A `Guid` is fresh by construction; the counter is fresh only while every id in the pools and the game's lists is below it (`Fresh`). `ApplyKeepsFresh` proves `Apply` keeps that invariant and adds every new id, but `Apply` on a database that breaks it may hand out an id the game already lists.
- `string.StartsWith` in the category gate and `ToLowerInvariant` are modelled as ordinal operations on ASCII case. Culture-specific and non-ASCII case mapping are left out.
- RateLimiter.WaitAsync: the clock is assumed honest, meaning it does not run backwards and a pause lasts at least as long as asked. `DateTime` overflow of `last + interval` is not modelled.
- FieldScan.Find covers only the pattern `"NAME"\s*:\s*"([^"]+)"` with `IgnoreCase`. Other regex semantics are not modelled.
- The Steam patterns `steam[_ ]?deck.*WORD` are modelled as a deck mention followed by the word on the same line (`.` does not match a line feed).
- Cache.FileTryGet: a file holding the other value type counts as a deserialisation failure, which the source catches: a miss with no deletion. The real serialiser might instead produce a default value.
- Cache.FileClear: case folding covers the ASCII letters only; Windows' full case table is not modelled.
- Cache.Sanitize: control characters, and any other character the pattern `[<>:"/\\|?*]` does not name, are kept, as in the source. On .NET Framework `Path.Combine` then throws for a control character, and `TryGetCached` and `SetCached` catch that as a miss or a skipped write (CacheManager.cs:48-84, 92-113). The model writes such a key as an ordinary file. The fetcher's keys `proton_{id}` and `deck_{id}` never contain one.
- Json.Display: a JSON number is an integer. A fractional number such as `1.5`, which `val.ToString()` would return as the text `1.5` (ProtonDbClient.cs:172), has no value in the model. The keys the client searches hold strings in ProtonDB's responses.
- Cache.TryGet: when `AddMinutes` throws because the deadline falls outside `DateTime`'s range, the source catches it and reports a miss. The model does the same but does not evict.

## Notes on the code

- Neither client goes through `RateLimiterService`: each calls `HttpClient.GetAsync` directly (ProtonDbClient.cs:70, SteamDeckSource.cs:41) in its own loop of at most 3 requests.
- Both clients treat 429 like any other 4xx: the call ends with Unknown, without a retry (ProtonDbClient.cs:91-94, SteamDeckSource.cs:43-46).
- `LocalSteamDeckSource` reads and classifies the body of any non-4xx response, 5xx included, instead of retrying it (SteamDeckSource.cs:43-48).
- The Steam classifier is a keyword scan of the body text; it reads no numeric category (SteamDeckSource.cs:51-83).
- `GetGameSummaryAsync` throws `ArgumentOutOfRangeException` for a non-positive id (ProtonDbClient.cs:57), while `LocalSteamDeckSource` returns Unknown (SteamDeckSource.cs:31).
- The pipelines add retry first, then the circuit breaker, then the timeout, so retry is the outermost strategy (RateLimiterService.cs:91-95).
- `MaxRetryAttempts = 3` allows 3 retries after the first attempt, so 4 attempts in all (RateLimiterService.cs:63-65).

Code that can never take effect:

- `Map`'s feature guard tests the bare category name, for example `Verified`, but adds `Steamdeck:Verified`. The list is empty at that point, so the guard always passes.
- The Steam field stage's `playable` and `unsupported` branches can never fire (`FieldStageNeverPlayable`).
