/** `fetchFromPokeAPI` (backend/server.js:24-43): a cache-through call to the upstream
    API, and the `Promise.all` fan-out the pipelines build from it.

    The upstream is a parameter: a function from endpoint to a JSON body or an error.
    The backend state records every endpoint actually requested upstream, so that
    "a cache hit does not call upstream" can be stated. */
module Fetcher {
  import opened Wrappers
  import opened Catalog
  import TtlCache

  /** Why an outbound call failed: a non-2xx status, or no response at all. */
  datatype UpstreamError = HttpStatus(code: int) | NetworkFailure

  type Upstream = string -> Result<Value, UpstreamError>

  /** A thrown JavaScript error; `response` is the HTTP status an axios error carries. */
  datatype Thrown = Thrown(response: Option<int>)

  datatype Backend = Backend(cache: TtlCache.Cache<Value>, requests: seq<string>)

  /** `cachedData` is truthy: the cache holds a live, truthy value for the key. */
  predicate Cached(c: TtlCache.Cache<Value>, key: string, now: int) {
    TtlCache.Readable(c, key, now) && Truthy(c.entries[key].value)
  }

  // ------------------------------------------------------------ one call

  /** What the call found before its first `await`: a usable cached value, or nothing. */
  datatype Probe = Hit(value: Value) | Miss

  datatype Probed = Probed(state: Backend, probe: Probe)

  /** The synchronous part of `fetchFromPokeAPI`: `cache.get` and the truthiness test. */
  function Start(s: Backend, endpoint: string, now: int): (r: Probed)
    ensures r.probe.Hit? <==> Cached(s.cache, endpoint, now)
    ensures r.probe.Hit? ==> r.probe.value == s.cache.entries[endpoint].value
    ensures r.state.requests == s.requests
    ensures r.state.cache.hits + r.state.cache.misses == s.cache.hits + s.cache.misses + 1
  {
    var l := TtlCache.Get(s.cache, endpoint, now);
    var st := s.(cache := l.cache);
    if l.found.Some? && Truthy(l.found.value) then Probed(st, Hit(l.found.value))
    else Probed(st, Miss)
  }

  /** What the call settles to, given its probe and the upstream's answer. */
  function Settle(probe: Probe, answer: Result<Value, UpstreamError>): (r: Result<Value, Thrown>)
    ensures probe.Hit? ==> r == Ok(probe.value)
    ensures probe.Miss? ==> (r.Ok? <==> answer.Ok?)
    ensures probe.Miss? && answer.Ok? ==> r.value == answer.value
    // the thrown error never carries the upstream response
    ensures r.Err? ==> r.error.response.None?
  {
    match probe
    case Hit(v) => Ok(v)
    case Miss =>
      match answer
      case Ok(d) => Ok(d)
      // `throw new Error(...)`: the axios error, and its response, are not passed on
      case Err(_) => Err(Thrown(None))
  }

  datatype Fetched = Fetched(state: Backend, result: Result<Value, Thrown>)

  /** The part after the `await`: on a miss, the outbound call and, on success, `cache.set`
      with the default TTL. */
  function Finish(s: Backend, endpoint: string, probe: Probe, upstream: Upstream, now: int): (r: Fetched)
    ensures r.result == Settle(probe, upstream(endpoint))
    ensures r.state.requests == s.requests + (if probe.Hit? then [] else [endpoint])
    // entries under other keys are never touched
    ensures forall k :: k != endpoint && k in s.cache.entries ==>
      k in r.state.cache.entries && r.state.cache.entries[k] == s.cache.entries[k]
  {
    match probe
    case Hit(v) => Fetched(s, Ok(v))
    case Miss =>
      var asked := s.(requests := s.requests + [endpoint]);
      match upstream(endpoint)
      case Ok(d) =>
        Fetched(asked.(cache := TtlCache.Set(s.cache, endpoint, d, TtlCache.DefaultTtl, now)), Ok(d))
      case Err(_) => Fetched(asked, Err(Thrown(None)))
  }

  /** `fetchFromPokeAPI(endpoint)`. */
  function Fetch(s: Backend, endpoint: string, upstream: Upstream, now: int): (r: Fetched)
    // a hit answers from the cache, without an outbound call and without storing anything
    ensures Cached(s.cache, endpoint, now) ==>
      && r.result == Ok(s.cache.entries[endpoint].value)
      && r.state.requests == s.requests
      && r.state.cache.entries == s.cache.entries
    // a miss calls upstream exactly once
    ensures !Cached(s.cache, endpoint, now) ==> r.state.requests == s.requests + [endpoint]
    // ... and stores a successful answer under the endpoint
    ensures !Cached(s.cache, endpoint, now) && upstream(endpoint).Ok? ==>
      && r.result == Ok(upstream(endpoint).value)
      && endpoint in r.state.cache.entries
      && r.state.cache.entries[endpoint] == TtlCache.Entry(upstream(endpoint).value, now, TtlCache.DefaultTtl)
    // ... while a failure stores nothing and throws an error without a response
    ensures !Cached(s.cache, endpoint, now) && upstream(endpoint).Err? ==>
      && r.result == Err(Thrown(None))
      && r.state.cache.entries.Keys <= s.cache.entries.Keys
      && forall k :: k in r.state.cache.entries ==> r.state.cache.entries[k] == s.cache.entries[k]
    // entries under other keys are never touched
    ensures forall k :: k != endpoint && k in s.cache.entries ==>
      k in r.state.cache.entries && r.state.cache.entries[k] == s.cache.entries[k]
    ensures r.state.cache.hits + r.state.cache.misses == s.cache.hits + s.cache.misses + 1
  {
    var p := Start(s, endpoint, now);
    Finish(p.state, endpoint, p.probe, upstream, now)
  }

  /** A hit does not depend on the upstream at all. */
  lemma FetchHitIgnoresUpstream(s: Backend, endpoint: string, u1: Upstream, u2: Upstream, now: int)
    requires Cached(s.cache, endpoint, now)
    ensures Fetch(s, endpoint, u1, now) == Fetch(s, endpoint, u2, now)
  {
  }

  /** A stored falsy value is treated like a miss: the upstream is asked again. */
  lemma FalsyCachedValueRefetches(s: Backend, endpoint: string, upstream: Upstream, now: int)
    requires TtlCache.Readable(s.cache, endpoint, now) && s.cache.entries[endpoint].value == Falsy
    ensures Fetch(s, endpoint, upstream, now).state.requests == s.requests + [endpoint]
    ensures Fetch(s, endpoint, upstream, now).state.cache.hits == s.cache.hits + 1
  {
  }

  /** Fetching twice in a row within the TTL asks upstream at most once. */
  lemma FetchTwiceAsksOnce(s: Backend, endpoint: string, upstream: Upstream, now: int)
    requires upstream(endpoint).Ok? && Truthy(upstream(endpoint).value)
    ensures var first := Fetch(s, endpoint, upstream, now);
            var second := Fetch(first.state, endpoint, upstream, now);
            && second.state.requests == first.state.requests
            && second.result == first.result
  {
  }

  // ------------------------------------------------------------ fan-out

  /** A `cache.get` leaves every other read at the same instant as it was. */
  lemma GetKeepsReadable(c: TtlCache.Cache<Value>, key: string, now: int, k: string)
    ensures Cached(TtlCache.Get(c, key, now).cache, k, now) <==> Cached(c, k, now)
    ensures Cached(c, k, now) ==> TtlCache.Get(c, key, now).cache.entries[k] == c.entries[k]
  {
  }

  datatype ProbedAll = ProbedAll(state: Backend, probes: seq<Probe>)

  /** The synchronous prefix of every call of a `Promise.all` fan-out, in order: every
      cache probe happens before the first outbound call completes. */
  function StartAll(s: Backend, endpoints: seq<string>, now: int): (r: ProbedAll)
    ensures |r.probes| == |endpoints|
    ensures forall i :: 0 <= i < |endpoints| ==>
      (r.probes[i].Hit? <==> Cached(s.cache, endpoints[i], now))
    ensures forall i :: 0 <= i < |endpoints| && Cached(s.cache, endpoints[i], now) ==>
      r.probes[i].value == s.cache.entries[endpoints[i]].value
    ensures r.state.requests == s.requests
    ensures forall k :: k !in endpoints && k in s.cache.entries ==>
      k in r.state.cache.entries && r.state.cache.entries[k] == s.cache.entries[k]
    decreases |endpoints|
  {
    if |endpoints| == 0 then ProbedAll(s, [])
    else
      var first := Start(s, endpoints[0], now);
      var rest := StartAll(first.state, endpoints[1..], now);
      forall k ensures (Cached(first.state.cache, k, now) <==> Cached(s.cache, k, now))
        && (Cached(s.cache, k, now) ==> first.state.cache.entries[k] == s.cache.entries[k])
      {
        GetKeepsReadable(s.cache, endpoints[0], now, k);
      }
      ProbedAll(rest.state, [first.probe] + rest.probes)
  }

  /** The endpoints of a batch the cache could not answer, in order. */
  function Missed(c: TtlCache.Cache<Value>, endpoints: seq<string>, now: int): (r: seq<string>)
    ensures |r| <= |endpoints|
    ensures forall k :: k in r <==> k in endpoints && !Cached(c, k, now)
  {
    if |endpoints| == 0 then []
    else (if Cached(c, endpoints[0], now) then [] else [endpoints[0]]) + Missed(c, endpoints[1..], now)
  }

  lemma {:induction false} MissedWithin(c: TtlCache.Cache<Value>, endpoints: seq<string>, now: int)
    ensures forall k :: k in Missed(c, endpoints, now) ==> k in endpoints
  {
    if |endpoints| > 0 {
      MissedWithin(c, endpoints[1..], now);
    }
  }

  function MissedProbes(endpoints: seq<string>, probes: seq<Probe>): (r: seq<string>)
    requires |probes| == |endpoints|
    ensures |r| <= |endpoints|
    ensures forall k :: k in r ==> k in endpoints
    ensures (forall i :: 0 <= i < |probes| ==> probes[i].Hit?) ==> r == []
    ensures (forall i :: 0 <= i < |probes| ==> probes[i].Miss?) ==> r == endpoints
  {
    if |endpoints| == 0 then []
    else (if probes[0].Hit? then [] else [endpoints[0]]) + MissedProbes(endpoints[1..], probes[1..])
  }

  datatype FetchedAll = FetchedAll(state: Backend, results: seq<Result<Value, Thrown>>)

  /** Every call completes (the completion order does not change what is returned or stored,
      the upstream being a function of the endpoint); the results stay position-aligned. */
  function FinishAll(s: Backend, endpoints: seq<string>, probes: seq<Probe>, upstream: Upstream, now: int)
    : (r: FetchedAll)
    requires |probes| == |endpoints|
    ensures |r.results| == |endpoints|
    ensures forall i :: 0 <= i < |endpoints| ==> r.results[i] == Settle(probes[i], upstream(endpoints[i]))
    ensures r.state.requests == s.requests + MissedProbes(endpoints, probes)
    ensures forall k :: k !in endpoints && k in s.cache.entries ==>
      k in r.state.cache.entries && r.state.cache.entries[k] == s.cache.entries[k]
    decreases |endpoints|
  {
    if |endpoints| == 0 then FetchedAll(s, [])
    else
      var first := Finish(s, endpoints[0], probes[0], upstream, now);
      var rest := FinishAll(first.state, endpoints[1..], probes[1..], upstream, now);
      FinishAllResults(endpoints, probes, upstream, first, rest);
      FinishAllRequests(s, endpoints, probes, first, rest);
      FinishAllFrame(s, endpoints, first, rest);
      FetchedAll(rest.state, [first.result] + rest.results)
  }

  /** The step of `FinishAll`, slot by slot: the first call's settlement, then the rest's. */
  lemma {:induction false} FinishAllResults(endpoints: seq<string>, probes: seq<Probe>, upstream: Upstream,
                         first: Fetched, rest: FetchedAll)
    requires |probes| == |endpoints| > 0
    requires first.result == Settle(probes[0], upstream(endpoints[0]))
    requires |rest.results| == |endpoints| - 1
    requires forall i :: 0 <= i < |endpoints| - 1 ==>
      rest.results[i] == Settle(probes[1..][i], upstream(endpoints[1..][i]))
    ensures forall i :: 0 <= i < |endpoints| ==>
      ([first.result] + rest.results)[i] == Settle(probes[i], upstream(endpoints[i]))
  {
    var results := [first.result] + rest.results;
    forall i | 0 <= i < |endpoints| ensures results[i] == Settle(probes[i], upstream(endpoints[i])) {
      if i > 0 {
        assert results[i] == rest.results[i - 1];
        assert endpoints[1..][i - 1] == endpoints[i] && probes[1..][i - 1] == probes[i];
      }
    }
  }

  /** The step of `FinishAll` for the outbound calls: the first call's, then the rest's. */
  lemma {:induction false} FinishAllRequests(s: Backend, endpoints: seq<string>, probes: seq<Probe>, first: Fetched, rest: FetchedAll)
    requires |probes| == |endpoints| > 0
    requires first.state.requests == s.requests + (if probes[0].Hit? then [] else [endpoints[0]])
    requires rest.state.requests == first.state.requests + MissedProbes(endpoints[1..], probes[1..])
    ensures rest.state.requests == s.requests + MissedProbes(endpoints, probes)
  {
    var head := if probes[0].Hit? then [] else [endpoints[0]];
    assert MissedProbes(endpoints, probes) == head + MissedProbes(endpoints[1..], probes[1..]);
    assert s.requests + head + MissedProbes(endpoints[1..], probes[1..])
        == s.requests + (head + MissedProbes(endpoints[1..], probes[1..]));
  }

  /** The step of `FinishAll` for the cache: neither part touches a key outside the batch. */
  lemma {:induction false} FinishAllFrame(s: Backend, endpoints: seq<string>, first: Fetched, rest: FetchedAll)
    requires |endpoints| > 0
    requires forall k :: k != endpoints[0] && k in s.cache.entries ==>
      k in first.state.cache.entries && first.state.cache.entries[k] == s.cache.entries[k]
    requires forall k :: k !in endpoints[1..] && k in first.state.cache.entries ==>
      k in rest.state.cache.entries && rest.state.cache.entries[k] == first.state.cache.entries[k]
    ensures forall k :: k !in endpoints && k in s.cache.entries ==>
      k in rest.state.cache.entries && rest.state.cache.entries[k] == s.cache.entries[k]
  {
    forall k | k !in endpoints && k in s.cache.entries
      ensures k in rest.state.cache.entries && rest.state.cache.entries[k] == s.cache.entries[k]
    {
      assert k != endpoints[0];
      assert k !in endpoints[1..];
    }
  }


  lemma {:induction false} MissedProbesIsMissed(c: TtlCache.Cache<Value>, endpoints: seq<string>, probes: seq<Probe>, now: int)
    requires |probes| == |endpoints|
    requires forall i :: 0 <= i < |endpoints| ==> (probes[i].Hit? <==> Cached(c, endpoints[i], now))
    ensures MissedProbes(endpoints, probes) == Missed(c, endpoints, now)
    decreases |endpoints|
  {
    if |endpoints| > 0 {
      MissedProbesIsMissed(c, endpoints[1..], probes[1..], now);
    }
  }

  /** `Promise.all(endpoints.map(fetchFromPokeAPI))`, each call's failure kept in its slot. */
  function FanOut(s: Backend, endpoints: seq<string>, upstream: Upstream, now: int): (r: FetchedAll)
    ensures |r.results| == |endpoints|
    // slot i holds exactly what a lone call for endpoint i would have returned
    ensures forall i :: 0 <= i < |endpoints| ==> r.results[i] == Fetch(s, endpoints[i], upstream, now).result
    // the outbound calls are exactly the cache misses, in order
    ensures r.state.requests == s.requests + Missed(s.cache, endpoints, now)
    // entries under keys outside the batch are untouched
    ensures forall k :: k !in endpoints && k in s.cache.entries ==>
      k in r.state.cache.entries && r.state.cache.entries[k] == s.cache.entries[k]
  {
    var started := StartAll(s, endpoints, now);
    MissedProbesIsMissed(s.cache, endpoints, started.probes, now);
    FinishAll(started.state, endpoints, started.probes, upstream, now)
  }
}
