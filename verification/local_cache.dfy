/** The browser-storage cache of frontend/src/hooks/useLocalCache.js: a value stored under
    a key together with an expiry time, read back as the hook's initial state. The storage
    is a map from key to what `JSON.parse` makes of the stored text; the clock is a
    parameter. */
module LocalCache {
  import opened Wrappers

  /** The default lifetime of a written value: one hour, in milliseconds. */
  const DefaultTtl: int := 3600000

  /** What a stored text parses to: an object with `data` and an `expiry` that may be
      missing (`None`), or text that does not parse to an object (the read throws and
      the handler falls back). */
  datatype Stored<T> = Entry(data: T, expiry: Option<int>) | Corrupt

  type Storage<T> = map<string, Stored<T>>

  /** A read's value and the storage after it. */
  datatype Read<T> = Read(value: T, storage: Storage<T>)

  /** `parsed.expiry && now > parsed.expiry`: a missing or zero expiry never passes. */
  predicate Expired(expiry: Option<int>, now: int) {
    expiry.Some? && expiry.value != 0 && now > expiry.value
  }

  /** The lazy initialiser of the hook's state: the stored data unless nothing is stored,
      the text is unusable, or the expiry has passed, in which case the item is removed. */
  function ReadValue<T>(storage: Storage<T>, key: string, initial: T, now: int): (r: Read<T>)
    ensures key !in storage ==> r == Read(initial, storage)
    ensures key in storage && storage[key].Corrupt? ==> r == Read(initial, storage)
    ensures key in storage && storage[key].Entry? && !Expired(storage[key].expiry, now)
      ==> r == Read(storage[key].data, storage)
    ensures key in storage && storage[key].Entry? && Expired(storage[key].expiry, now)
      ==> r.value == initial && key !in r.storage
    ensures forall k :: k != key ==> (k in r.storage <==> k in storage)
    ensures forall k :: k != key && k in storage ==> r.storage[k] == storage[k]
  {
    if key !in storage then Read(initial, storage)
    else match storage[key]
      case Corrupt => Read(initial, storage)
      case Entry(data, expiry) =>
        if Expired(expiry, now) then Read(initial, storage - {key}) else Read(data, storage)
  }

  /** `updateValue(v)` at time `now`: the hook's value becomes `v` and the item
      `{data: v, expiry: now + ttl}` is stored under the key. */
  function Write<T>(storage: Storage<T>, key: string, v: T, now: int, ttl: int): (r: Read<T>)
    ensures r.value == v
    ensures key in r.storage && r.storage[key] == Entry(v, Some(now + ttl))
    ensures forall k :: k != key ==> (k in r.storage <==> k in storage)
    ensures forall k :: k != key && k in storage ==> r.storage[k] == storage[k]
  {
    Read(v, storage[key := Entry(v, Some(now + ttl))])
  }

  /** A value written at `t` is read back at any time up to and including `t + ttl`. */
  lemma WriteThenRead<T>(storage: Storage<T>, key: string, v: T, t: int, ttl: int, later: int, initial: T)
    requires later <= t + ttl
    ensures ReadValue(Write(storage, key, v, t, ttl).storage, key, initial, later).value == v
  {
  }

  /** After `t + ttl` the read falls back to the initial value and removes the item
      (a written expiry of exactly 0 would be read as missing). */
  lemma WriteThenReadLate<T>(storage: Storage<T>, key: string, v: T, t: int, ttl: int, later: int, initial: T)
    requires later > t + ttl && t + ttl != 0
    ensures var r := ReadValue(Write(storage, key, v, t, ttl).storage, key, initial, later);
      r.value == initial && key !in r.storage
  {
  }

  /** An entry without an expiry is returned at every time. */
  lemma NoExpiryNeverExpires<T>(storage: Storage<T>, key: string, initial: T, now: int)
    requires key in storage && storage[key].Entry? && storage[key].expiry.None?
    ensures ReadValue(storage, key, initial, now) == Read(storage[key].data, storage)
  {
  }

  /** Expiry is strict: at the expiry instant the data is still returned. */
  lemma ReadAtExpiry<T>(storage: Storage<T>, key: string, initial: T)
    requires key in storage && storage[key].Entry? && storage[key].expiry.Some?
    ensures ReadValue(storage, key, initial, storage[key].expiry.value).value == storage[key].data
  {
  }

  /** Reading again at the same time returns the same value: the removal of an expired
      item leaves the key absent, which falls back alike. */
  lemma ReadTwice<T>(storage: Storage<T>, key: string, initial: T, now: int)
    ensures var first := ReadValue(storage, key, initial, now);
      ReadValue(first.storage, key, initial, now) == first
  {
  }

  /** Writing under one key leaves every other key's read unchanged. */
  lemma WriteIsolated<T>(storage: Storage<T>, key: string, other: string, v: T, now: int, ttl: int,
                         initial: T, later: int)
    requires other != key
    ensures ReadValue(Write(storage, key, v, now, ttl).storage, other, initial, later).value
         == ReadValue(storage, other, initial, later).value
  {
  }
}
