/** The authenticator: a bounded cache with expiring entries in front of the tenant store. */
module Authenticator {
  import opened Wrappers
  import opened TenantStore

  datatype Entry = Entry(key: string, insertedAt: int, record: TenantRecord)

  /** The cache dictionary in insertion order. */
  type Cache = seq<Entry>

  /** `min` of an empty dictionary raises. */
  datatype CacheError = EmptyMin

  function Lookup(cache: Cache, key: string): (e: Option<Entry>)
    ensures e.Some? ==> e.value in cache && e.value.key == key
    ensures e.None? ==> forall x | x in cache :: x.key != key
  {
    if cache == [] then None
    else if cache[0].key == key then Some(cache[0])
    else Lookup(cache[1..], key)
  }

  function DropKey(cache: Cache, key: string): (r: Cache)
    ensures |r| <= |cache|
  {
    if cache == [] then []
    else if cache[0].key == key then DropKey(cache[1..], key)
    else [cache[0]] + DropKey(cache[1..], key)
  }

  /** min(cache, key=inserted_at): the first entry with the least insertion time. */
  function Oldest(cache: Cache): (i: nat)
    requires cache != []
    ensures i < |cache|
    ensures forall j | 0 <= j < |cache| :: cache[i].insertedAt <= cache[j].insertedAt
    ensures forall j | 0 <= j < i :: cache[i].insertedAt < cache[j].insertedAt
  {
    if |cache| == 1 then 0
    else
      var n := |cache| - 1;
      var i := Oldest(cache[..n]);
      if cache[n].insertedAt < cache[i].insertedAt then n else i
  }

  function RemoveAt(cache: Cache, i: nat): Cache
    requires i < |cache|
  {
    cache[..i] + cache[i + 1..]
  }

  function Remember(cache: Cache, cacheMax: int, entry: Entry): Result<Cache, CacheError> {
    if |cache| < cacheMax then Ok(cache + [entry])
    else if cache == [] then Err(EmptyMin)
    else Ok(RemoveAt(cache, Oldest(cache)) + [entry])
  }

  /** One authentication; `found` is what the store answers now. */
  function AuthStep(cache: Cache, ttl: int, cacheMax: int, key: string, now: int, found: Option<TenantRecord>)
    : (Cache, Result<Option<TenantRecord>, CacheError>)
  {
    var hit := Lookup(cache, key);
    if hit.Some? && now - hit.value.insertedAt < ttl then (cache, Ok(Some(hit.value.record)))
    else
      var cache' := if hit.Some? then DropKey(cache, key) else cache;
      if found.None? then (cache', Ok(None))
      else
        match Remember(cache', cacheMax, Entry(key, now, found.value))
        case Err(e) => (cache', Err(e))
        case Ok(cache'') => (cache'', Ok(found))
  }

  // --- The cache as a dictionary --------------------------------------

  ghost predicate DistinctKeys(cache: Cache) {
    forall i, j | 0 <= i < j < |cache| :: cache[i].key != cache[j].key
  }

  lemma {:induction false} DropKeyDrops(cache: Cache, key: string)
    ensures forall x :: x in DropKey(cache, key) <==> x in cache && x.key != key
    ensures DistinctKeys(cache) ==> DistinctKeys(DropKey(cache, key))
  {
    if cache != [] {
      DropKeyDrops(cache[1..], key);
      var rest := DropKey(cache[1..], key);
      assert forall x :: x in cache <==> x == cache[0] || x in cache[1..];
      if DistinctKeys(cache) {
        assert forall i | 0 <= i < |cache[1..]| :: cache[1..][i] == cache[i + 1];
        assert forall i | 0 <= i < |rest| :: rest[i] in rest && rest[i] in cache[1..];
        assert forall i | 0 <= i < |cache[1..]| :: cache[1..][i].key != cache[0].key;
      }
    }
  }

  /** Remembering evicts at most one entry, of least insertion time, and only when the cache is full. */
  lemma RememberEvictsOldest(cache: Cache, cacheMax: int, entry: Entry)
    requires Remember(cache, cacheMax, entry).Ok?
    ensures var cache' := Remember(cache, cacheMax, entry).value;
            && entry in cache'
            && (|cache| < cacheMax ==> forall x | x in cache :: x in cache')
            && (forall x | x in cache && x !in cache' ::
                  |cache| >= cacheMax && forall y | y in cache :: x.insertedAt <= y.insertedAt)
            && (forall x | x in cache' :: x == entry || x in cache)
            && (1 <= cacheMax && |cache| <= cacheMax ==> |cache'| <= cacheMax)
            && (|cache| >= cacheMax ==> |cache'| == |cache|)
  {
    if |cache| >= cacheMax {
      var i := Oldest(cache);
      var cache' := Remember(cache, cacheMax, entry).value;
      forall j | 0 <= j < |cache| && j != i
        ensures cache[j] in cache'
      {
        assert cache[j] == if j < i then cache'[j] else cache'[j - 1];
      }
    }
  }

  lemma RememberDistinct(cache: Cache, cacheMax: int, entry: Entry)
    requires Remember(cache, cacheMax, entry).Ok? && DistinctKeys(cache)
    requires forall x | x in cache :: x.key != entry.key
    ensures DistinctKeys(Remember(cache, cacheMax, entry).value)
  {
  }

  lemma AuthStepKeepsCache(cache: Cache, ttl: int, cacheMax: int, key: string, now: int, found: Option<TenantRecord>)
    requires DistinctKeys(cache) && |cache| <= if cacheMax < 0 then 0 else cacheMax
    ensures var cache' := AuthStep(cache, ttl, cacheMax, key, now, found).0;
            && DistinctKeys(cache')
            && |cache'| <= (if cacheMax < 0 then 0 else cacheMax)
            && forall x | x in cache' :: x in cache || (found.Some? && x == Entry(key, now, found.value))
  {
    DropKeyDrops(cache, key);
    var hit := Lookup(cache, key);
    var base := if hit.Some? then DropKey(cache, key) else cache;
    if found.Some? && Remember(base, cacheMax, Entry(key, now, found.value)).Ok? {
      RememberEvictsOldest(base, cacheMax, Entry(key, now, found.value));
      RememberDistinct(base, cacheMax, Entry(key, now, found.value));
    }
  }

  /** Authentication raises exactly when a fresh answer must be cached and no cache is allowed. */
  lemma AuthRaisesIff(cache: Cache, ttl: int, cacheMax: int, key: string, now: int, found: Option<TenantRecord>)
    requires |cache| <= if cacheMax < 0 then 0 else cacheMax
    ensures AuthStep(cache, ttl, cacheMax, key, now, found).1.Err? <==> cacheMax <= 0 && found.Some?
  {
    DropKeyDrops(cache, key);
    if cacheMax > 0 && |DropKey(cache, key)| == 0 {
      assert DropKey(cache, key) == [];
    }
  }

  // --- The authenticator ---------------------------------------------

  class Authenticator {
    const store: Store
    const ttl: int
    const cacheMax: int
    var cache: Cache

    constructor (store: Store, ttl: int, cacheMax: int)
      ensures this.store == store && this.ttl == ttl && this.cacheMax == cacheMax && cache == []
    {
      this.store, this.ttl, this.cacheMax, this.cache := store, ttl, cacheMax, [];
    }

    method Authenticate(rawKey: string, now: int) returns (r: Result<Option<TenantRecord>, CacheError>)
      modifies this
      ensures (cache, r) == AuthStep(old(cache), ttl, cacheMax, rawKey, now,
                                     AuthenticateIn(old(store.Contents()), rawKey, now))
    {
      var cached := Lookup(cache, rawKey);
      if cached.Some? {
        if now - cached.value.insertedAt < ttl {
          return Ok(Some(cached.value.record));
        }
        cache := DropKey(cache, rawKey);
      }
      var record := store.Authenticate(rawKey, now);
      if record.Some? {
        var ok := RememberKey(rawKey, record.value, now);
        if !ok {
          return Err(EmptyMin);
        }
      }
      return Ok(record);
    }

    method Invalidate(rawKey: string)
      modifies this
      ensures cache == DropKey(old(cache), rawKey)
    {
      cache := DropKey(cache, rawKey);
    }

    method RememberKey(rawKey: string, record: TenantRecord, now: int) returns (ok: bool)
      modifies this
      ensures match Remember(old(cache), cacheMax, Entry(rawKey, now, record))
              case Err(_) => !ok && cache == old(cache)
              case Ok(cache') => ok && cache == cache'
    {
      if |cache| >= cacheMax {
        if cache == [] {
          return false;
        }
        var oldest := FindOldest();
        cache := RemoveAt(cache, oldest);
      }
      cache := cache + [Entry(rawKey, now, record)];
      return true;
    }

    method FindOldest() returns (i: nat)
      requires cache != []
      ensures i == Oldest(cache)
    {
      i := 0;
      assert cache[..1] == [cache[0]];
      for n := 1 to |cache|
        invariant i < n && i == Oldest(cache[..n])
      {
        assert cache[..n + 1][..n] == cache[..n];
        if cache[n].insertedAt < cache[i].insertedAt {
          i := n;
        }
      }
      assert cache[..|cache|] == cache;
    }
  }
}
