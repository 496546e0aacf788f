/**
 * The proxy variant's response cache (`CdnCache`): a map from key to a response and the
 * time it was inserted, bounded in entries and expiring entries a fixed time after insertion.
 * Time is an explicit clock in nanoseconds passed to each operation (moka reads a monotonic
 * clock). Which entries moka evicts when over capacity is not specified: the model evicts
 * arbitrary ones, and only the bound is promised.
 */
module Cache {

  import opened Wrappers
  import opened Text
  import opened Headers
  import opened Http

  datatype CachedResponse = CachedResponse(status: StatusCode, headers: HeaderList, body: Bytes)

  datatype Entry = Entry(response: CachedResponse, insertedAt: nat)

  type Store = map<string, Entry>

  const NanosPerSecond: nat := 1_000_000_000

  /** Bytes of memory assumed per entry: about 10 KB. */
  const BytesPerEntry: nat := 10 * 1024

  /**
   * `(size_mb * 1024 * 1024) / (10 * 1024)` in `u64` arithmetic: the product wraps
   * modulo 2^64 (a release build; a debug build would panic instead).
   */
  function MaxCapacity(sizeMb: uint64): (n: nat)
    ensures n <= (U64Modulus - 1) / BytesPerEntry
  {
    ((sizeMb * 1024 * 1024) % U64Modulus) / BytesPerEntry
  }

  /** Below 2^44 megabytes nothing wraps and the capacity is `floor(size_mb * 1024 / 10)`. */
  lemma MaxCapacityExact(sizeMb: uint64)
    requires sizeMb < 0x1000_0000_0000
    ensures MaxCapacity(sizeMb) == sizeMb * 1024 / 10
  {
    var product := sizeMb * 1024 * 1024;
    assert product < U64Modulus;
    var q, r := sizeMb * 1024 / 10, sizeMb * 1024 % 10;
    assert sizeMb * 1024 == 10 * q + r;
    assert product == BytesPerEntry * q + 1024 * r;
    assert 0 <= 1024 * r < BytesPerEntry;
  }

  /** At 2^44 megabytes the product is exactly 2^64 and wraps to a capacity of 0. */
  lemma MaxCapacityWraps(sizeMb: uint64)
    requires sizeMb == 0x1000_0000_0000
    ensures MaxCapacity(sizeMb) == 0
  {
    assert sizeMb * 1024 * 1024 == U64Modulus;
  }

  /** The default 100 MB gives 10240 entries; 0 MB gives none. */
  lemma MaxCapacityExamples()
    ensures MaxCapacity(100) == 10240
    ensures MaxCapacity(0) == 0
  {
    MaxCapacityExact(100);
  }

  /** An entry is served while its age is below the time-to-live; at or past it, it is expired. */
  predicate Fresh(e: Entry, ttl: nat, now: nat) {
    now < e.insertedAt + ttl
  }

  /** What a lookup at time `now` answers. */
  function Lookup(store: Store, key: string, ttl: nat, now: nat): Option<CachedResponse> {
    if key in store && Fresh(store[key], ttl, now) then Some(store[key].response) else None
  }

  /** The store with `key`'s entry replaced wholesale by `response`, stamped `now`. */
  function Put(store: Store, key: string, response: CachedResponse, now: nat): Store {
    store[key := Entry(response, now)]
  }

  /** `kept` is `full` with some entries evicted and nothing else changed. */
  predicate Retains(full: Store, kept: Store) {
    kept.Keys <= full.Keys && forall k :: k in kept ==> kept[k] == full[k]
  }

  /** Within the time-to-live a lookup returns exactly what was inserted; from then on nothing. */
  lemma LookupAfterPut(store: Store, key: string, response: CachedResponse, t: nat, ttl: nat, now: nat)
    ensures Lookup(Put(store, key, response, t), key, ttl, now) == if now < t + ttl then Some(response) else None
  {
  }

  /** Inserting under one key leaves every other key's answer as it was. */
  lemma LookupPutOther(store: Store, key: string, other: string, response: CachedResponse, t: nat, ttl: nat, now: nat)
    requires other != key
    ensures Lookup(Put(store, key, response, t), other, ttl, now) == Lookup(store, other, ttl, now)
  {
  }

  /** An entry whose age has reached the time-to-live is never returned. */
  lemma ExpiredNeverReturned(store: Store, key: string, ttl: nat, now: nat)
    requires key in store && now >= store[key].insertedAt + ttl
    ensures Lookup(store, key, ttl, now) == None
  {
  }

  /** Eviction only ever turns an answer into none; it never changes or invents one. */
  lemma LookupRetained(full: Store, kept: Store, key: string, ttl: nat, now: nat)
    requires Retains(full, kept)
    ensures Lookup(kept, key, ttl, now).Some? ==> Lookup(kept, key, ttl, now) == Lookup(full, key, ttl, now)
  {
  }

  /** A hit stays a hit, with the same response, at every earlier time since insertion. */
  lemma HitPersistsBackwards(store: Store, key: string, ttl: nat, earlier: nat, later: nat)
    requires key in store && store[key].insertedAt <= earlier <= later
    ensures Lookup(store, key, ttl, later).Some? ==> Lookup(store, key, ttl, earlier) == Lookup(store, key, ttl, later)
  {
  }

  lemma {:induction false} RemoveOneCard(m: Store, k: string)
    requires k in m
    ensures |m - {k}| == |m| - 1
  {
    assert (m - {k}).Keys == m.Keys - {k};
  }

  /** The longest time-to-live moka's builder accepts: 1000 years of 365 days, in seconds. */
  const MaxTtlSeconds: nat := 1000 * 365 * 24 * 3600

  class CdnCache {
    const maxCapacity: nat
    /** The time-to-live in nanoseconds. */
    const ttl: nat
    var entries: Store

    ghost predicate Valid()
      reads this
    {
      |entries| <= maxCapacity
    }

    /**
     * `CdnCache::new(size_mb, ttl_seconds)`. moka's builder refuses (panics on) a time-to-live
     * longer than 1000 years, so a cache exists only for a time-to-live within that bound.
     */
    constructor (sizeMb: uint64, ttlSeconds: uint64)
      requires ttlSeconds <= MaxTtlSeconds
      ensures Valid() && entries == map[]
      ensures maxCapacity == MaxCapacity(sizeMb) && ttl == ttlSeconds * NanosPerSecond
    {
      maxCapacity := MaxCapacity(sizeMb);
      ttl := ttlSeconds * NanosPerSecond;
      entries := map[];
    }

    /** `get`: the entry's response while it is fresh, otherwise none. */
    method Get(key: string, now: nat) returns (r: Option<CachedResponse>)
      ensures r.Some? <==> key in entries && Fresh(entries[key], ttl, now)
      ensures r.Some? ==> r.value == entries[key].response
    {
      if key in entries && now < entries[key].insertedAt + ttl {
        r := Some(entries[key].response);
      } else {
        r := None;
      }
    }

    /**
     * `insert`: the key's entry becomes the given response, stamped `now`, whatever its
     * status, headers or body; if that overflows the capacity, some entries (possibly the
     * new one) are evicted until the bound holds again.
     */
    method Insert(key: string, status: StatusCode, headers: HeaderList, body: Bytes, now: nat)
      requires Valid()
      modifies this
      ensures Valid()
      ensures Retains(Put(old(entries), key, CachedResponse(status, headers, body), now), entries)
      ensures |Put(old(entries), key, CachedResponse(status, headers, body), now)| <= maxCapacity ==>
                entries == Put(old(entries), key, CachedResponse(status, headers, body), now)
    {
      var full := Put(entries, key, CachedResponse(status, headers, body), now);
      var m := full;
      while |m| > maxCapacity
        invariant Retains(full, m)
        invariant |full| <= maxCapacity ==> m == full
        decreases |m|
      {
        var victim :| victim in m;
        RemoveOneCard(m, victim);
        m := m - {victim};
      }
      entries := m;
    }

    /** `len`: the number of entries held, expired ones not yet dropped included. */
    method Len() returns (n: nat)
      ensures n == |entries|
    {
      n := |entries|;
    }

    /** `invalidate`: the key's entry is gone, every other entry stays. */
    method Invalidate(key: string)
      requires Valid()
      modifies this
      ensures Valid()
      ensures entries == old(entries) - {key}
    {
      if key in entries {
        RemoveOneCard(entries, key);
      }
      entries := entries - {key};
    }

    /** `clear`: every entry is gone. */
    method Clear()
      modifies this
      ensures Valid()
      ensures entries == map[]
    {
      entries := map[];
    }
  }

  /** A short session against the cache: what each call promises, put together. */
  method Session(key: string, other: string, c: CachedResponse, t: nat)
    requires key != other
  {
    var cache := new CdnCache(100, 300);
    MaxCapacityExamples();
    cache.Insert(key, c.status, c.headers, c.body, t);
    assert cache.entries == map[key := Entry(c, t)];
    var r := cache.Get(key, t + 299 * NanosPerSecond);
    assert r == Some(c);
    r := cache.Get(key, t + 300 * NanosPerSecond);
    assert r == None;
    cache.Invalidate(key);
    r := cache.Get(key, t);
    assert r == None;
    cache.Insert(other, c.status, c.headers, c.body, t);
    cache.Clear();
    var n := cache.Len();
    assert n == 0;
  }
}
