/**
 * The contract both cache backends share, stated once over `Cache.Backend`:
 * a write is read back while fresh, null writes and empty keys are ignored,
 * an expired entry is evicted for good, and `Clear` forgets everything.
 */
module CacheLaws {
  import opened Common
  import opened Domain
  import opened Text
  import opened Cache

  /** A cache file name always carries the `.cache.json` suffix, in lower case, that `Clear` deletes. */
  lemma CacheFileNameHasSuffix(key: string)
    ensures EndsWith(CacheFileName(key), Suffix)
    ensures EndsWith(Lower(CacheFileName(key)), Suffix)
  {
    var n := CacheFileName(key);
    var k := |n| - |Suffix|;
    assert n[k..] == Suffix;
    SuffixIsLowerCase();
    assert Lower(n)[k..] == Lower(n[k..]);
  }

  lemma SuffixIsLowerCase()
    ensures Lower(Suffix) == Suffix
  {
  }

  /** A written value is read back, unchanged and without side effect, while its TTL has not run out. */
  lemma SetThenGet(b: Backend, key: string, v: Value, t: int, ttlMinutes: int, now: int)
    requires key != ""
    requires ValidTime(now) && now <= t + ttlMinutes * MsPerMinute <= MaxTime
    ensures TryGet(Set(b, key, Some(v), t), key, ttlMinutes, now, KindOf(v))
            == Read(Some(v), Set(b, key, Some(v), t))
  {
  }

  /** A second write to the same key replaces the first completely. */
  lemma SetOverwrites(b: Backend, key: string, v1: Value, t1: int, v2: Value, t2: int)
    ensures Set(Set(b, key, Some(v1), t1), key, Some(v2), t2) == Set(b, key, Some(v2), t2)
  {
    if key != "" {
      match b
      case Memory(m) =>
        assert MemorySet(MemorySet(m, key, Some(v1), t1), key, Some(v2), t2).entries
            == MemorySet(m, key, Some(v2), t2).entries;
      case Files(f) =>
        assert FileSet(FileSet(f, key, Some(v1), t1), key, Some(v2), t2).files
            == FileSet(f, key, Some(v2), t2).files;
    }
  }

  /** A null value or an empty key is never cached, and never makes a read of that key succeed. */
  lemma NullSetIsIgnored(b: Backend, key: string, data: Option<Value>, t: int, ttlMinutes: int, now: int, kind: Kind)
    requires key == "" || data.None?
    ensures Set(b, key, data, t) == b
    ensures key == "" || Absent(b, key) ==> TryGet(Set(b, key, data, t), key, ttlMinutes, now, kind).hit == None
  {
  }

  /** A read of the empty key or of a key with nothing stored finds nothing and changes nothing. */
  lemma MissingKeyReadsNothing(b: Backend, key: string, ttlMinutes: int, now: int, kind: Kind)
    requires key == "" || Absent(b, key)
    ensures TryGet(b, key, ttlMinutes, now, kind) == Read(None, b)
  {
  }

  /**
   * Reading an expired entry reports a miss and deletes it: every later read of that key
   * misses, whatever TTL, time or type it asks with, and keys kept in other slots are unaffected.
   */
  lemma ExpiredIsEvictedForGood(b: Backend, key: string, ttlMinutes: int, now: int, kind: Kind)
    requires key != "" && HoldsExpired(b, key, ttlMinutes, now, kind)
    ensures TryGet(b, key, ttlMinutes, now, kind).hit == None
    ensures Absent(TryGet(b, key, ttlMinutes, now, kind).after, key)
    ensures forall ttl2, now2, kind2 ::
      TryGet(TryGet(b, key, ttlMinutes, now, kind).after, key, ttl2, now2, kind2).hit == None
    ensures forall k2, ttl2, now2, kind2 :: Slot(b, k2) != Slot(b, key) ==>
      TryGet(TryGet(b, key, ttlMinutes, now, kind).after, k2, ttl2, now2, kind2).hit
      == TryGet(b, k2, ttl2, now2, kind2).hit
  {
    var after := TryGet(b, key, ttlMinutes, now, kind).after;
    forall ttl2, now2, kind2 ensures TryGet(after, key, ttl2, now2, kind2).hit == None {
      MissingKeyReadsNothing(after, key, ttl2, now2, kind2);
    }
    forall k2, ttl2, now2, kind2 | Slot(b, k2) != Slot(b, key)
      ensures TryGet(after, k2, ttl2, now2, kind2).hit == TryGet(b, k2, ttl2, now2, kind2).hit
    {
      TryGetLocal(after, b, k2, ttl2, now2, kind2);
    }
  }

  /** The in-memory backend ignores an entry stored under another type: a miss, and the entry stays. */
  lemma MemoryOtherTypeIsKept(m: MemoryCache, key: string, ttlMinutes: int, now: int, kind: Kind)
    requires key in m.entries && KindOf(m.entries[key].data) != kind
    ensures MemoryTryGet(m, key, ttlMinutes, now, kind) == Read(None, m)
  {
  }

  /** After `Clear` no key can be read, and the read changes nothing. */
  lemma ClearForgetsEverything(b: Backend, key: string, ttlMinutes: int, now: int, kind: Kind)
    ensures TryGet(Clear(b), key, ttlMinutes, now, kind) == Read(None, Clear(b))
  {
    if b.Files? && key != "" {
      CacheFileNameHasSuffix(key);
    }
  }

  /** Keys that sanitise alike share a file: a write under one is read back under the other. */
  lemma CollidingKeysShareAFile(f: FileCache, k1: string, k2: string, v: Value, t: int, ttlMinutes: int, now: int)
    requires k1 != "" && k2 != "" && Sanitize(k1) == Sanitize(k2)
    requires ValidTime(now) && now <= t + ttlMinutes * MsPerMinute <= MaxTime
    ensures FileTryGet(FileSet(f, k1, Some(v), t), k2, ttlMinutes, now, KindOf(v)).hit == Some(v)
  {
  }

  /** Keys that differ only in ASCII letter case name the same file: a write under one is read back under the other. */
  lemma CaseVariantsShareAFile(f: FileCache, k1: string, k2: string, v: Value, t: int, ttlMinutes: int, now: int)
    requires k1 != "" && k2 != "" && Lower(k1) == Lower(k2)
    requires ValidTime(now) && now <= t + ttlMinutes * MsPerMinute <= MaxTime
    ensures FileTryGet(FileSet(f, k1, Some(v), t), k2, ttlMinutes, now, KindOf(v)).hit == Some(v)
  {
    SanitizeLower(k1);
    SanitizeLower(k2);
  }

  /** A miss stays a miss: once a read has missed, reading the same key again later, with nothing written in between, misses too. */
  lemma MissPersists(b: Backend, key: string, ttlMinutes: int, t1: int, t2: int, kind: Kind)
    requires t1 <= t2
    requires TryGet(b, key, ttlMinutes, t1, kind).hit.None?
    ensures TryGet(TryGet(b, key, ttlMinutes, t1, kind).after, key, ttlMinutes, t2, kind).hit.None?
  {
  }
}
