/**
 * The TTL cache behind `ICacheManager`, with its two backends: an in-process
 * dictionary (`InMemoryCacheManager`) and one file per key in a directory
 * (`FileCacheManager`).
 *
 * Time is an integer count of milliseconds since `DateTime.MinValue`; the
 * caller passes the current time, which the source reads from
 * `DateTime.UtcNow`. A cached value is one of the two result types the plugin
 * stores, and a read names the type it asks for, as `TryGetCached<T>` does.
 */
module Cache {
  import opened Common
  import opened Text
  import opened Domain

  const MsPerMinute: int := 60000

  /** `DateTime.MaxValue` in whole milliseconds since `DateTime.MinValue`. */
  const MaxTime: int := 315537897599999

  /** A representable `DateTime`. */
  predicate ValidTime(t: int) {
    0 <= t <= MaxTime
  }

  /** The values the plugin caches. */
  datatype Value = ProtonValue(proton: ProtonDbResult) | DeckValue(deck: SteamDeckCompatibility)

  /** The `T` of a `TryGetCached<T>` call. */
  datatype Kind = ProtonKind | DeckKind

  function KindOf(v: Value): Kind {
    match v
    case ProtonValue(_) => ProtonKind
    case DeckValue(_) => DeckKind
  }

  /** `CacheEntry<T>`: the value and the time it was written. */
  datatype CacheEntry = CacheEntry(data: Value, cachedAt: int)

  /** The three ways `IsExpired` can end: `AddMinutes` throws when the deadline leaves `DateTime`'s range. */
  datatype Expiry = Fresh | Expired | OutOfRange

  /** `CacheEntry.IsExpired(ttlMinutes)` evaluated at time `now`. */
  function ExpiryOf(e: CacheEntry, ttlMinutes: int, now: int): (x: Expiry)
    ensures x == Fresh ==> now <= e.cachedAt + ttlMinutes * MsPerMinute
    ensures x == Expired ==> now > e.cachedAt + ttlMinutes * MsPerMinute
    ensures x == OutOfRange <==> !ValidTime(e.cachedAt + ttlMinutes * MsPerMinute)
  {
    var deadline := e.cachedAt + ttlMinutes * MsPerMinute;
    if !ValidTime(deadline) then OutOfRange
    else if now > deadline then Expired
    else Fresh
  }

  /** An entry read back under a negative TTL at or after its write time is never fresh. */
  lemma NegativeTtlNeverFresh(e: CacheEntry, ttlMinutes: int, now: int)
    requires ttlMinutes < 0 && now >= e.cachedAt
    ensures ExpiryOf(e, ttlMinutes, now) != Fresh
  {
  }

  /** The result of a read: the value found, if any, and the cache afterwards (reads may evict). */
  datatype Read<S> = Read(hit: Option<Value>, after: S)

  // ---------------------------------------------------------------- in memory

  /** `InMemoryCacheManager`: a dictionary from key to entry. */
  datatype MemoryCache = MemoryCache(entries: map<string, CacheEntry>)

  /** `InMemoryCacheManager.TryGetCached<T>`; the empty key stands for null or empty. */
  function MemoryTryGet(c: MemoryCache, key: string, ttlMinutes: int, now: int, kind: Kind): (r: Read<MemoryCache>)
    ensures r.hit.Some? <==>
      key != "" && key in c.entries && KindOf(c.entries[key].data) == kind
      && ExpiryOf(c.entries[key], ttlMinutes, now) == Fresh
    ensures r.hit.Some? ==> r.hit.value == c.entries[key].data
    ensures r.after.entries.Keys <= c.entries.Keys
    ensures forall k :: k in c.entries && k != key ==> k in r.after.entries && r.after.entries[k] == c.entries[k]
    ensures key in r.after.entries ==> r.after.entries[key] == c.entries[key]
  {
    if key == "" then Read(None, c)
    else if key in c.entries && KindOf(c.entries[key].data) == kind then
      var e := c.entries[key];
      match ExpiryOf(e, ttlMinutes, now)
      case Fresh => Read(Some(e.data), c)
      case Expired => Read(None, MemoryCache(c.entries - {key}))
      case OutOfRange => Read(None, c)
    else
      Read(None, c)
  }

  /** `InMemoryCacheManager.SetCached<T>`; `None` is a null value. */
  function MemorySet(c: MemoryCache, key: string, data: Option<Value>, now: int): (r: MemoryCache)
    ensures key == "" || data.None? ==> r == c
    ensures key != "" && data.Some? ==> key in r.entries && r.entries[key] == CacheEntry(data.value, now)
    ensures forall k :: k != key ==> (k in r.entries <==> k in c.entries)
    ensures forall k :: k != key && k in c.entries ==> r.entries[k] == c.entries[k]
  {
    if key == "" || data.None? then c
    else MemoryCache(c.entries[key := CacheEntry(data.value, now)])
  }

  /** `InMemoryCacheManager.Clear`. */
  function MemoryClear(c: MemoryCache): (r: MemoryCache)
    ensures forall k :: k !in r.entries
  {
    MemoryCache(map[])
  }

  // ---------------------------------------------------------------- on disk

  /** What reading one cache file can produce: an entry, the JSON `null`, or an exception. */
  datatype FileContent = Serialized(entry: CacheEntry) | NullDocument | Unreadable

  /**
   * `FileCacheManager`: the cache directory, as a map from file name to content. Windows compares
   * file names ignoring case, so a file is keyed by its name with the ASCII letters lower-cased.
   */
  datatype FileCache = FileCache(files: map<string, FileContent>)

  /** Every cache file is named `<sanitised key>.cache.json`. */
  const Suffix: string := ".cache.json"

  /** The characters `GetCacheFilePath` replaces: `< > : " / \ | ? *`. */
  predicate Forbidden(c: char) {
    c == '<' || c == '>' || c == ':' || c == '"' || c == '/' || c == '\\' || c == '|' || c == '?' || c == '*'
  }

  function SanitizeChar(c: char): char {
    if Forbidden(c) then '_' else c
  }

  /** The regex replacement in `GetCacheFilePath`: each forbidden character becomes `_`. */
  function Sanitize(key: string): (r: string)
    ensures |r| == |key|
    ensures forall i :: 0 <= i < |key| ==> r[i] == SanitizeChar(key[i])
  {
    if key == [] then [] else [SanitizeChar(key[0])] + Sanitize(key[1..])
  }

  /**
   * The name of the file that holds `key`, as the file system identifies it: one character per
   * character of the key, none of them forbidden, then the suffix.
   */
  function CacheFileName(key: string): (r: string)
    ensures |r| == |key| + |Suffix| && r[|key|..] == Suffix
    ensures forall i :: 0 <= i < |key| ==> !Forbidden(r[i])
  {
    Lower(Sanitize(key)) + Suffix
  }

  /** A sanitised name contains no forbidden character and is left alone by a second sanitisation. */
  lemma SanitizeClean(key: string)
    ensures forall i :: 0 <= i < |Sanitize(key)| ==> !Forbidden(Sanitize(key)[i])
    ensures Sanitize(Sanitize(key)) == Sanitize(key)
  {
  }

  /** Sanitising and lower-casing commute: no forbidden character is a letter. */
  lemma SanitizeLower(key: string)
    ensures Lower(Sanitize(key)) == Sanitize(Lower(key))
  {
  }

  /** Sanitisation is not injective: two different keys can share one file. */
  lemma SanitizeCollides()
    ensures "a<b" != "a>b" && Sanitize("a<b") == Sanitize("a>b")
  {
    assert "a<b"[1] != "a>b"[1];
    assert Sanitize("a<b") == "a_b";
    assert Sanitize("a>b") == "a_b";
  }

  /** The key's file holds a readable entry of the requested type whose TTL check ends with `x`. */
  predicate FileEntryIs(c: FileCache, key: string, ttlMinutes: int, now: int, kind: Kind, x: Expiry) {
    var n := CacheFileName(key);
    n in c.files && c.files[n].Serialized? && KindOf(c.files[n].entry.data) == kind
    && ExpiryOf(c.files[n].entry, ttlMinutes, now) == x
  }

  /**
   * `FileCacheManager.TryGetCached<T>`. A hit is exactly a fresh entry of the requested type. A file
   * that deserialises to null, or holds an expired entry, is deleted; every other miss (an unreadable
   * file, content of another type, a deadline out of `DateTime`'s range) leaves the directory alone.
   */
  function FileTryGet(c: FileCache, key: string, ttlMinutes: int, now: int, kind: Kind): (r: Read<FileCache>)
    ensures r.hit.Some? <==> key != "" && FileEntryIs(c, key, ttlMinutes, now, kind, Fresh)
    ensures r.hit.Some? ==> r.hit.value == c.files[CacheFileName(key)].entry.data
    ensures var n := CacheFileName(key);
      key != "" && n in c.files && (c.files[n].NullDocument? || FileEntryIs(c, key, ttlMinutes, now, kind, Expired))
      ==> r.after.files == c.files - {n}
    ensures var n := CacheFileName(key);
      !(key != "" && n in c.files && (c.files[n].NullDocument? || FileEntryIs(c, key, ttlMinutes, now, kind, Expired)))
      ==> r.after == c
    ensures r.after.files.Keys <= c.files.Keys
    ensures forall n :: n in c.files && (key == "" || n != CacheFileName(key)) ==> n in r.after.files && r.after.files[n] == c.files[n]
  {
    if key == "" then Read(None, c)
    else
      var name := CacheFileName(key);
      if name !in c.files then Read(None, c)
      else
        match c.files[name]
        case Unreadable => Read(None, c)
        case NullDocument => Read(None, FileCache(c.files - {name}))
        case Serialized(e) =>
          if KindOf(e.data) != kind then Read(None, c)
          else
            match ExpiryOf(e, ttlMinutes, now)
            case Fresh => Read(Some(e.data), c)
            case Expired => Read(None, FileCache(c.files - {name}))
            case OutOfRange => Read(None, c)
  }

  /** `FileCacheManager.SetCached<T>`: (over)writes the key's file. */
  function FileSet(c: FileCache, key: string, data: Option<Value>, now: int): (r: FileCache)
    ensures key == "" || data.None? ==> r == c
    ensures key != "" && data.Some? ==>
      CacheFileName(key) in r.files && r.files[CacheFileName(key)] == Serialized(CacheEntry(data.value, now))
    ensures forall n :: (key == "" || n != CacheFileName(key)) ==> (n in r.files <==> n in c.files)
    ensures forall n :: (key == "" || n != CacheFileName(key)) && n in c.files ==> r.files[n] == c.files[n]
  {
    if key == "" || data.None? then c
    else FileCache(c.files[CacheFileName(key) := Serialized(CacheEntry(data.value, now))])
  }

  /** `s` ends with `suffix`, as the `*.cache.json` file pattern requires. */
  predicate EndsWith(s: string, suffix: string) {
    |suffix| <= |s| && s[|s| - |suffix|..] == suffix
  }

  /** `FileCacheManager.Clear`: deletes the files matching `*.cache.json`, in any letter case, and nothing else. */
  function FileClear(c: FileCache): (r: FileCache)
    ensures forall n :: n in r.files <==> n in c.files && !EndsWith(Lower(n), Suffix)
    ensures forall n :: n in r.files ==> r.files[n] == c.files[n]
  {
    FileCache(map n | n in c.files && !EndsWith(Lower(n), Suffix) :: c.files[n])
  }

  // ---------------------------------------------------------------- the interface

  /** `ICacheManager`: one of the two backends. */
  datatype Backend = Memory(memory: MemoryCache) | Files(disk: FileCache)

  /** Where a key is stored: the dictionary key itself, or the name of its file. */
  function Slot(b: Backend, key: string): string {
    if b.Memory? then key else CacheFileName(key)
  }

  /** What one slot of a backend holds. */
  datatype Stored = Vacant | InMemory(entry: CacheEntry) | OnDisk(content: FileContent)

  function At(b: Backend, slot: string): Stored {
    match b
    case Memory(m) => if slot in m.entries then InMemory(m.entries[slot]) else Vacant
    case Files(f) => if slot in f.files then OnDisk(f.files[slot]) else Vacant
  }

  /** Two backends of the same variant that agree on every slot are the same backend. */
  lemma AtExtensional(b1: Backend, b2: Backend)
    requires b1.Memory? <==> b2.Memory?
    requires forall slot :: At(b1, slot) == At(b2, slot)
    ensures b1 == b2
  {
    match b1
    case Memory(m1) =>
      forall k | k in m1.entries ensures k in b2.memory.entries && m1.entries[k] == b2.memory.entries[k] {
        assert At(b1, k) == At(b2, k);
      }
      forall k | k in b2.memory.entries ensures k in m1.entries {
        assert At(b1, k) == At(b2, k);
      }
      assert m1.entries == b2.memory.entries;
    case Files(f1) =>
      forall n | n in f1.files ensures n in b2.disk.files && f1.files[n] == b2.disk.files[n] {
        assert At(b1, n) == At(b2, n);
      }
      forall n | n in b2.disk.files ensures n in f1.files {
        assert At(b1, n) == At(b2, n);
      }
      assert f1.files == b2.disk.files;
  }

  /** `ICacheManager.TryGetCached<T>`: a hit is of the requested type, and only the key's own slot can change. */
  function TryGet(b: Backend, key: string, ttlMinutes: int, now: int, kind: Kind): (r: Read<Backend>)
    ensures r.hit.Some? ==> KindOf(r.hit.value) == kind
    ensures r.after.Memory? <==> b.Memory?
    ensures forall slot :: slot != Slot(b, key) ==> At(r.after, slot) == At(b, slot)
  {
    match b
    case Memory(m) => var r := MemoryTryGet(m, key, ttlMinutes, now, kind); Read(r.hit, Memory(r.after))
    case Files(f) => var r := FileTryGet(f, key, ttlMinutes, now, kind); Read(r.hit, Files(r.after))
  }

  /** `ICacheManager.SetCached<T>`: only the key's own slot can change. */
  function Set(b: Backend, key: string, data: Option<Value>, now: int): (r: Backend)
    ensures r.Memory? <==> b.Memory?
    ensures forall slot :: slot != Slot(b, key) ==> At(r, slot) == At(b, slot)
  {
    match b
    case Memory(m) => Memory(MemorySet(m, key, data, now))
    case Files(f) => Files(FileSet(f, key, data, now))
  }

  /** A read depends only on the key's own slot, and so does what it leaves there. */
  lemma TryGetLocal(b1: Backend, b2: Backend, key: string, ttlMinutes: int, now: int, kind: Kind)
    requires b1.Memory? <==> b2.Memory?
    requires At(b1, Slot(b1, key)) == At(b2, Slot(b2, key))
    ensures TryGet(b1, key, ttlMinutes, now, kind).hit == TryGet(b2, key, ttlMinutes, now, kind).hit
    ensures At(TryGet(b1, key, ttlMinutes, now, kind).after, Slot(b1, key))
         == At(TryGet(b2, key, ttlMinutes, now, kind).after, Slot(b2, key))
  {
  }

  /** A write leaves the key's own slot the same whatever was there before. */
  lemma SetLocal(b1: Backend, b2: Backend, key: string, data: Option<Value>, now: int)
    requires b1.Memory? <==> b2.Memory?
    requires At(b1, Slot(b1, key)) == At(b2, Slot(b2, key))
    ensures At(Set(b1, key, data, now), Slot(b1, key)) == At(Set(b2, key, data, now), Slot(b2, key))
  {
  }

  function Clear(b: Backend): Backend {
    match b
    case Memory(m) => Memory(MemoryClear(m))
    case Files(f) => Files(FileClear(f))
  }

  /** Nothing is stored in the key's slot. */
  predicate Absent(b: Backend, key: string) {
    match b
    case Memory(m) => Slot(b, key) !in m.entries
    case Files(f) => Slot(b, key) !in f.files
  }

  /** The key's slot holds an entry of the requested type that has expired. */
  predicate HoldsExpired(b: Backend, key: string, ttlMinutes: int, now: int, kind: Kind) {
    match b
    case Memory(m) =>
      key in m.entries && KindOf(m.entries[key].data) == kind
      && ExpiryOf(m.entries[key], ttlMinutes, now) == Expired
    case Files(f) =>
      FileEntryIs(f, key, ttlMinutes, now, kind, Expired)
  }
}
