/** The response cache (`modules/advanced_features.py`) as a bounded view of an unbounded map. */
module ResponseCache {
  import opened Collections

  datatype CacheEntry = CacheEntry(response: string, timestamp: real)

  class ResponseCache {
    const maxSize: int
    const ttl: real
    const norm: string -> string                 // lower-casing and stripping
    var cache: map<string, CacheEntry>
    ghost var latest: map<string, CacheEntry>    // the last response set for each key since the last clear
    ghost var clock: real                        // the last clock reading

    ghost predicate Expired(e: CacheEntry, now: real) {
      now - e.timestamp >= ttl
    }

    /** Nothing held was set before `e`. */
    ghost predicate OlderThanAllHeld(e: CacheEntry)
      reads this
    {
      forall j | j in cache :: e.timestamp <= cache[j].timestamp
    }

    ghost predicate Valid()
      reads this
    {
      && |cache| <= (if maxSize > 0 then maxSize else 0)
      && (forall k | k in cache :: k in latest && latest[k] == cache[k])
      && (forall k | k in latest :: latest[k].timestamp <= clock)
      && forall k | k in latest && k !in cache :: Expired(latest[k], clock) || OlderThanAllHeld(latest[k])
    }

    constructor (maxSize: int, ttl: real, norm: string -> string)
      ensures Valid() && latest == map[] && this.maxSize == maxSize && this.ttl == ttl && this.norm == norm
    {
      this.maxSize, this.ttl, this.norm := maxSize, ttl, norm;
      cache, latest, clock := map[], map[], 0.0;
    }

    /** A hit is the latest response for the key, set less than a TTL ago; a miss means that there is
        none, or that everything still held was set no earlier. */
    method Get(query: string, now: real) returns (response: Option<string>)
      requires Valid() && clock <= now
      modifies this
      ensures Valid() && clock == now && latest == old(latest)
      ensures cache == if response.Some? then old(cache) else old(cache) - {norm(query)}
      ensures response.Some? <==> norm(query) in old(cache) && now - old(cache)[norm(query)].timestamp < ttl
      ensures response.Some? ==>
        && norm(query) in latest && now - latest[norm(query)].timestamp < ttl
        && response.value == latest[norm(query)].response
      ensures response.None? && norm(query) in latest && now - latest[norm(query)].timestamp < ttl ==>
        OlderThanAllHeld(latest[norm(query)])
    {
      clock := now;
      var key := norm(query);
      if key in cache {
        if now - cache[key].timestamp < ttl { return Some(cache[key].response); }
        cache := cache - {key};
      }
      response := None;
    }

    /** An entry of the cache that was set no later than any other. */
    method Oldest() returns (oldest: string)
      requires cache != map[]
      ensures oldest in cache && OlderThanAllHeld(cache[oldest])
    {
      oldest :| oldest in cache;
      var rest := cache.Keys - {oldest};
      while rest != {}
        invariant rest <= cache.Keys && oldest in cache
        invariant forall j | j in cache && j !in rest :: cache[oldest].timestamp <= cache[j].timestamp
        decreases rest
      {
        var k :| k in rest;
        if cache[k].timestamp < cache[oldest].timestamp { oldest := k; }
        rest := rest - {k};
      }
    }

    /** Drops the oldest entry. */
    method Evict() returns (oldest: string)
      requires Valid() && cache != map[]
      modifies this`cache
      ensures Valid() && oldest in old(cache) && cache == old(cache) - {oldest} && |cache| == |old(cache)| - 1
      ensures forall j | j in old(cache) :: old(cache)[oldest].timestamp <= old(cache)[j].timestamp
    {
      oldest := Oldest();
      ghost var keys := cache.Keys;
      cache := cache - {oldest};
      assert cache.Keys == keys - {oldest};
    }

    /** Stores a response, first dropping the oldest entry of a full cache (also when the key is
        already held).  A cache with no room cannot store anything: the original raises. */
    method Set(query: string, response: string, now: real) returns (stored: bool, ghost evicted: set<string>)
      requires Valid() && clock <= now
      modifies this
      ensures Valid() && clock == now && stored == (maxSize >= 1)
      ensures stored ==>
        && latest == old(latest)[norm(query) := CacheEntry(response, now)]
        && cache == (old(cache) - evicted)[norm(query) := CacheEntry(response, now)]
        && (if |old(cache)| < maxSize then evicted == {} else exists o :: evicted == {o} && o in old(cache))
        && forall o, j | o in evicted && o in old(cache) && j in old(cache) ::
             old(cache)[o].timestamp <= old(cache)[j].timestamp
      ensures !stored ==> cache == old(cache) && latest == old(latest)
    {
      clock, evicted := now, {};
      if maxSize < 1 { return false, {}; }
      if |cache| >= maxSize {
        var oldest := Evict();
        evicted := {oldest};
      } else {
        assert cache == cache - {};
      }
      var key, entry := norm(query), CacheEntry(response, now);
      Remember(key, entry);
      stored := true;
    }

    /** Puts an entry set now into a cache with room for it. */
    method Remember(key: string, entry: CacheEntry)
      requires Valid() && |cache| < maxSize && entry.timestamp == clock
      modifies this`cache, this`latest
      ensures Valid() && cache == old(cache)[key := entry] && latest == old(latest)[key := entry]
    {
      ghost var keys := cache.Keys;
      cache := cache[key := entry];
      latest := latest[key := entry];
      assert cache.Keys == keys + {key};
    }

    method Clear()
      requires Valid()
      modifies this
      ensures Valid() && cache == map[] && latest == map[] && clock == old(clock)
    {
      cache, latest := map[], map[];
    }
  }
}
