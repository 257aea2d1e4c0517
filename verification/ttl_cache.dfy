/** The backend's in-process cache (`new NodeCache({ stdTTL: 3600 })` in
    backend/server.js): an expired entry is dropped when it is read (the library's periodic
    sweep is not modelled), and every read counts a hit or a miss.
    Time is an explicit parameter `now`, in seconds, like the library's TTLs. */
module TtlCache {
  import opened Wrappers

  /** `stdTTL`: the TTL of an entry stored without an explicit one (one hour). */
  const DefaultTtl: nat := 3600

  datatype Entry<V> = Entry(value: V, insertedAt: int, ttl: nat)

  datatype Cache<V> = Cache(entries: map<string, Entry<V>>, hits: nat, misses: nat)

  function Empty<V>(): (c: Cache<V>)
    ensures c.entries == map[] && c.hits == 0 && c.misses == 0
  {
    Cache(map[], 0, 0)
  }

  /** An entry is readable only strictly before its insertion time plus its TTL. */
  predicate Live<V>(e: Entry<V>, now: int) {
    now < e.insertedAt + e.ttl
  }

  predicate Readable<V>(c: Cache<V>, key: string, now: int) {
    key in c.entries && Live(c.entries[key], now)
  }

  datatype Lookup<V> = Lookup(cache: Cache<V>, found: Option<V>)

  /** `cache.get(key)`: the stored value while it is live, counting a hit; otherwise
      nothing, counting a miss and dropping an expired entry. */
  function Get<V>(c: Cache<V>, key: string, now: int): (r: Lookup<V>)
    ensures r.found.Some? <==> Readable(c, key, now)
    ensures r.found.Some? ==> r.found.value == c.entries[key].value && r.cache == c.(hits := c.hits + 1)
    ensures r.found.None? ==> r.cache == c.(entries := c.entries - {key}, misses := c.misses + 1)
  {
    if Readable(c, key, now) then Lookup(c.(hits := c.hits + 1), Some(c.entries[key].value))
    else Lookup(c.(entries := c.entries - {key}, misses := c.misses + 1), None)
  }

  /** `cache.set(key, value, ttl)`: overwrites the entry wholesale; the statistics are untouched. */
  function Set<V>(c: Cache<V>, key: string, value: V, ttl: nat, now: int): (r: Cache<V>)
    ensures r.hits == c.hits && r.misses == c.misses
    ensures key in r.entries && r.entries[key] == Entry(value, now, ttl)
    ensures forall k :: k in c.entries && k != key ==> k in r.entries && r.entries[k] == c.entries[k]
    ensures forall k :: k in r.entries ==> k == key || k in c.entries
  {
    c.(entries := c.entries[key := Entry(value, now, ttl)])
  }

  /** `cache.flushAll()`: every entry goes. Whether the hit/miss counters restart is left to `resetStats`. */
  function Flush<V>(c: Cache<V>, resetStats: bool): (r: Cache<V>)
    ensures r.entries == map[]
    ensures resetStats ==> r.hits == 0 && r.misses == 0
    ensures !resetStats ==> r.hits == c.hits && r.misses == c.misses
  {
    if resetStats then Empty() else c.(entries := map[])
  }

  /** A value just stored is read back as long as its TTL has not run out. */
  lemma SetThenGet<V>(c: Cache<V>, key: string, value: V, ttl: nat, t: int, now: int)
    requires t <= now < t + ttl
    ensures Get(Set(c, key, value, ttl, t), key, now).found == Some(value)
  {
  }

  /** Once the TTL has run out the entry reads as absent and is dropped. */
  lemma GetAfterExpiry<V>(c: Cache<V>, key: string, value: V, ttl: nat, t: int, now: int)
    requires now >= t + ttl
    ensures Get(Set(c, key, value, ttl, t), key, now).found == None
    ensures key !in Get(Set(c, key, value, ttl, t), key, now).cache.entries
  {
  }

  /** Reads every key in turn, as a burst of `cache.get` calls does. */
  function GetAll<V>(c: Cache<V>, keys: seq<string>, now: int): (r: Lookups<V>)
    ensures |r.found| == |keys|
    // each answer is what a lone read of a live entry gives
    ensures forall i :: 0 <= i < |keys| && r.found[i].Some? ==> keys[i] in c.entries
    ensures forall i :: 0 <= i < |keys| ==>
      r.found[i] == (if Readable(c, keys[i], now) then Some(c.entries[keys[i]].value) else None)
    // keys that are not read keep their entries
    ensures forall k :: k !in keys && k in c.entries ==> k in r.cache.entries && r.cache.entries[k] == c.entries[k]
    ensures forall k :: k in r.cache.entries ==> k in c.entries
    decreases |keys|
  {
    if |keys| == 0 then Lookups(c, [])
    else
      var first := Get(c, keys[0], now);
      var rest := GetAll(first.cache, keys[1..], now);
      GetAllAnswers(c, keys, now, first, rest.found);
      Lookups(rest.cache, [first.found] + rest.found)
  }

  /** The step of `GetAll`: the rest of the burst, read after the first key, gives the
      answers the cache held when the burst started. */
  lemma {:induction false} GetAllAnswers<V>(c: Cache<V>, keys: seq<string>, now: int,
                                             first: Lookup<V>, found: seq<Option<V>>)
    requires |keys| > 0 && first == Get(c, keys[0], now)
    requires |found| == |keys| - 1
    requires forall i :: 0 <= i < |keys| - 1 ==>
      found[i] == (if Readable(first.cache, keys[1..][i], now) then Some(first.cache.entries[keys[1..][i]].value) else None)
    ensures forall i :: 0 <= i < |keys| ==>
      ([first.found] + found)[i] == (if Readable(c, keys[i], now) then Some(c.entries[keys[i]].value) else None)
  {
    forall i | 0 <= i < |keys|
      ensures ([first.found] + found)[i] == (if Readable(c, keys[i], now) then Some(c.entries[keys[i]].value) else None)
    {
      if i > 0 {
        assert keys[1..][i - 1] == keys[i];
        GetKeepsLive(c, keys[0], now, keys[i]);
      }
    }
  }

  /** A read drops at most the entry it reads, and only an expired one: every live entry stays. */
  lemma GetKeepsLive<V>(c: Cache<V>, key: string, now: int, k: string)
    ensures Readable(Get(c, key, now).cache, k, now) <==> Readable(c, k, now)
    ensures Readable(c, k, now) ==> Get(c, key, now).cache.entries[k] == c.entries[k]
  {
  }

  datatype Lookups<V> = Lookups(cache: Cache<V>, found: seq<Option<V>>)

  /** Every read is counted exactly once: hits plus misses grow by the number of reads,
      and hits by the number of reads that found something. */
  lemma {:induction false} GetAllCountsEveryRead<V>(c: Cache<V>, keys: seq<string>, now: int)
    ensures GetAll(c, keys, now).cache.hits + GetAll(c, keys, now).cache.misses
            == c.hits + c.misses + |keys|
    ensures GetAll(c, keys, now).cache.hits == c.hits + FoundCount(GetAll(c, keys, now).found)
    decreases |keys|
  {
    if |keys| > 0 {
      var first := Get(c, keys[0], now);
      GetAllCountsEveryRead(first.cache, keys[1..], now);
      var r := GetAll(c, keys, now);
      assert r.found[1..] == GetAll(first.cache, keys[1..], now).found;
    }
  }

  function FoundCount<V>(s: seq<Option<V>>): nat {
    if |s| == 0 then 0 else (if s[0].Some? then 1 else 0) + FoundCount(s[1..])
  }

  /** The `hitRate` field of `/api/cache/stats`: `hits / (hits + misses) || 0`. The `|| 0`
      turns the `NaN` of `0 / 0` into 0. */
  function HitRate(hits: nat, misses: nat): (r: real)
    ensures 0.0 <= r <= 1.0
    ensures hits + misses == 0 ==> r == 0.0
    ensures hits + misses > 0 ==> r * (hits + misses) as real == hits as real
    ensures r == 0.0 <==> hits == 0
  {
    if hits + misses == 0 then 0.0 else hits as real / (hits + misses) as real
  }

  datatype Stats = Stats(keys: nat, hits: nat, misses: nat, hitRate: real)

  /** The `/api/cache/stats` body: the number of stored keys, expired ones not yet read
      included, and the counters. */
  function StatsOf<V>(c: Cache<V>): (s: Stats)
    ensures s.keys == |c.entries|
    ensures s.hitRate == HitRate(c.hits, c.misses)
  {
    Stats(|c.entries|, c.hits, c.misses, HitRate(c.hits, c.misses))
  }
}
