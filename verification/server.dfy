/** The catalogue routes of backend/server.js: the paginated list, the detail lookup,
    the name search, and the cache maintenance routes. Each route is a function from
    the backend state and the request's parameters to the new state and the reply. */
module Server {
  import opened Wrappers
  import opened Seqs
  import opened Text
  import opened Catalog
  import opened Fetcher
  import TtlCache

  /** A JSON reply: a 200 body, or an error status with the `error` message. */
  datatype Reply<T> = Success(body: T) | Failure(status: int, error: string)

  datatype Served<T> = Served(state: Backend, reply: Reply<T>)

  // ---------------------------------------------------------------- parameters

  /** `parseInt(text) || default`: the parsed number, unless it is `NaN` or 0
      (a missing parameter parses as `NaN`). */
  function IntParam(text: Option<string>, default: int): (r: int)
    ensures r == default || (text.Some? && r != 0 && ParseInt(text.value, None) == Some(r))
    ensures text.None? || ParseInt(text.value, None) in {None, Some(0)} ==> r == default
  {
    if text.None? then default
    else
      var p := ParseInt(text.value, None);
      if p.Some? && p.value != 0 then p.value else default
  }

  /** A number written out by `String(n)` is read back, except 0, which means "use the default". */
  lemma IntParamOfIntToString(n: int, default: int)
    ensures IntParam(Some(IntToString(n)), default) == if n == 0 then default else n
  {
    ParseIntOfIntToString(n);
  }

  /** The list route's key, `/pokemon?offset=<offset>&limit=<limit>`. */
  function PageEndpoint(offset: int, limit: int): (r: string)
    ensures |r| > 16 && r[..16] == "/pokemon?offset="
  {
    "/pokemon?offset=" + IntToString(offset) + "&limit=" + IntToString(limit)
  }

  /** The detail key, `/pokemon/<name>`: the name is what follows the prefix. */
  function DetailEndpoint(name: string): (r: string)
    ensures |r| == |name| + 9 && r[..9] == "/pokemon/" && r[9..] == name
  {
    "/pokemon/" + name
  }

  function DetailEndpoints(refs: seq<Ref>): (r: seq<string>)
    ensures |r| == |refs|
    ensures forall i :: 0 <= i < |refs| ==> r[i] == DetailEndpoint(refs[i].name)
  {
    seq(|refs|, i requires 0 <= i < |refs| => DetailEndpoint(refs[i].name))
  }

  /** Distinct pages get distinct cache keys: the key determines offset and limit. */
  lemma PageEndpointInjective(o1: int, l1: int, o2: int, l2: int)
    requires PageEndpoint(o1, l1) == PageEndpoint(o2, l2)
    ensures o1 == o2 && l1 == l2
  {
    assert !IsDigitIn('&', 10);
    PageEndpointParts(IntToString(o1), IntToString(l1), IntToString(o2), IntToString(l2));
    ParseIntOfIntToString(o1);
    ParseIntOfIntToString(o2);
    ParseIntOfIntToString(l1);
    ParseIntOfIntToString(l2);
  }

  /** The list key splits back into its offset text and its limit text. */
  lemma PageEndpointParts(a1: string, b1: string, a2: string, b2: string)
    requires '&' !in a1 && '&' !in a2
    requires "/pokemon?offset=" + a1 + "&limit=" + b1 == "/pokemon?offset=" + a2 + "&limit=" + b2
    ensures a1 == a2 && b1 == b2
  {
    var prefix := "/pokemon?offset=";
    var t1, t2 := a1 + "&" + ("limit=" + b1), a2 + "&" + ("limit=" + b2);
    assert prefix + a1 + "&limit=" + b1 == prefix + t1;
    assert prefix + a2 + "&limit=" + b2 == prefix + t2;
    assert t1 == (prefix + t1)[|prefix|..] == t2;
    SplitAtSeparator(a1, "limit=" + b1, a2, "limit=" + b2, '&');
    assert b1 == ("limit=" + b1)[6..] == b2;
  }

  /** The text before the first separator, and the text after it, are determined. */
  lemma SplitAtSeparator(a1: string, x1: string, a2: string, x2: string, sep: char)
    requires sep !in a1 && sep !in a2
    requires a1 + [sep] + x1 == a2 + [sep] + x2
    ensures a1 == a2 && x1 == x2
  {
    var s := a1 + [sep] + x1;
    FirstSeparator(a1, x1, sep);
    FirstSeparator(a2, x2, sep);
    assert a1 == s[..|a1|] == a2;
    assert x1 == s[|a1| + 1..] == x2;
  }

  lemma FirstSeparator(a: string, x: string, sep: char)
    requires sep !in a
    ensures (a + [sep] + x)[|a|] == sep
    ensures forall i :: 0 <= i < |a| ==> (a + [sep] + x)[i] != sep
  {
  }

  /** A detail key never collides with a list key or with the search snapshot key. */
  lemma DetailEndpointDistinct(name: string, offset: int, limit: int)
    ensures DetailEndpoint(name) != PageEndpoint(offset, limit)
    ensures DetailEndpoint(name) != SnapshotEndpoint
    ensures DetailEndpoint(name) != SnapshotKey
  {
    assert DetailEndpoint(name)[8] == '/';
    assert PageEndpoint(offset, limit)[8] == '?';
    assert SnapshotEndpoint[8] == '?';
    assert DetailEndpoint(name)[0] != SnapshotKey[0];
  }

  // ---------------------------------------------------------------- enrichment

  /** What each call of a fan-out would return on its own, from the state the fan-out starts in. */
  function LoneResults(s: Backend, endpoints: seq<string>, upstream: Upstream, now: int)
    : (r: seq<Result<Value, Thrown>>)
    ensures |r| == |endpoints|
    ensures forall i :: 0 <= i < |endpoints| ==> r[i] == Fetch(s, endpoints[i], upstream, now).result
  {
    seq(|endpoints|, i requires 0 <= i < |endpoints| => Fetch(s, endpoints[i], upstream, now).result)
  }

  /** The per-item `try` of the enrichment: a failed call, or a body the projection cannot
      read, becomes `null` (`None`). */
  function Project<T>(results: seq<Result<Value, Thrown>>, view: Value -> Option<T>): (r: seq<Option<T>>)
    ensures |r| == |results|
    ensures forall i :: 0 <= i < |results| ==> r[i] == if results[i].Ok? then view(results[i].value) else None
  {
    seq(|results|, i requires 0 <= i < |results| => if results[i].Ok? then view(results[i].value) else None)
  }

  /** Enriches a batch: fan out, project each body, drop the `null`s. */
  function Enrich<T>(s: Backend, endpoints: seq<string>, view: Value -> Option<T>, upstream: Upstream, now: int)
    : (r: (Backend, seq<T>))
    // the records are those of the lone calls that succeeded, in request order
    ensures r.1 == Somes(Project(LoneResults(s, endpoints, upstream, now), view))
    ensures |r.1| <= |endpoints|
    ensures r.0.requests == s.requests + Missed(s.cache, endpoints, now)
    ensures forall k :: k !in endpoints && k in s.cache.entries ==>
      k in r.0.cache.entries && r.0.cache.entries[k] == s.cache.entries[k]
  {
    var fan := FanOut(s, endpoints, upstream, now);
    assert fan.results == LoneResults(s, endpoints, upstream, now);
    (fan.state, Somes(Project(fan.results, view)))
  }

  /** When every lone call yields a readable body, nothing is dropped and slot i is the
      record of endpoint i. */
  lemma EnrichKeepsAll<T>(s: Backend, endpoints: seq<string>, view: Value -> Option<T>, upstream: Upstream, now: int)
    requires forall i :: 0 <= i < |endpoints| ==>
      var f := Fetch(s, endpoints[i], upstream, now).result; f.Ok? && view(f.value).Some?
    ensures var r := Enrich(s, endpoints, view, upstream, now).1;
      && |r| == |endpoints|
      && forall i :: 0 <= i < |endpoints| ==> r[i] == view(Fetch(s, endpoints[i], upstream, now).result.value).value
  {
    var p := Project(LoneResults(s, endpoints, upstream, now), view);
    SomesAllPresent(p);
  }

  // ---------------------------------------------------------------- GET /api/pokemon

  const DefaultOffset := 0
  const DefaultLimit := 20

  datatype ListBody = ListBody(count: int, next: Option<string>, previous: Option<string>, results: seq<Pokemon>)

  /** `GET /api/pokemon?offset&limit`: one page of the upstream list, each entry enriched
      with its details; an entry whose details fail is dropped, the page itself failing is a 500. */
  function ListPokemon(s: Backend, offset: Option<string>, limit: Option<string>, upstream: Upstream, now: int)
    : (r: Served<ListBody>)
    ensures var page := Fetch(s, PageEndpoint(IntParam(offset, DefaultOffset), IntParam(limit, DefaultLimit)), upstream, now);
      && (page.result.Err? || !page.result.value.PageBody? ==>
            r == Served(page.state, Failure(500, "Error fetching Pokémon list")))
      && (page.result.Ok? && page.result.value.PageBody? ==>
            var p := page.result.value;
            var eps := DetailEndpoints(p.results);
            && r.reply.Success?
            // the paging fields are passed through unchanged
            && r.reply.body.count == p.count
            && r.reply.body.next == p.next
            && r.reply.body.previous == p.previous
            && r.reply.body.results == Somes(Project(LoneResults(page.state, eps, upstream, now), ToPokemon))
            && r.state.requests == page.state.requests + Missed(page.state.cache, eps, now))
  {
    var page := Fetch(s, PageEndpoint(IntParam(offset, DefaultOffset), IntParam(limit, DefaultLimit)), upstream, now);
    if page.result.Err? || !page.result.value.PageBody? then
      Served(page.state, Failure(500, "Error fetching Pokémon list"))
    else
      var p := page.result.value;
      var e := Enrich(page.state, DetailEndpoints(p.results), ToPokemon, upstream, now);
      Served(e.0, Success(ListBody(p.count, p.next, p.previous, e.1)))
  }

  /** Asking for the same page twice within the TTL reaches upstream for it at most once,
      provided upstream answers it with a body. */
  lemma ListTwiceAsksPageOnce(s: Backend, offset: Option<string>, limit: Option<string>,
                              upstream: Upstream, t1: int, t2: int)
    requires var key := PageEndpoint(IntParam(offset, DefaultOffset), IntParam(limit, DefaultLimit));
      upstream(key).Ok? && Truthy(upstream(key).value)
    requires t1 <= t2 < t1 + TtlCache.DefaultTtl
    ensures var key := PageEndpoint(IntParam(offset, DefaultOffset), IntParam(limit, DefaultLimit));
      var first := ListPokemon(s, offset, limit, upstream, t1);
      var second := ListPokemon(first.state, offset, limit, upstream, t2);
      multiset(second.state.requests)[key] <= multiset(s.requests)[key] + 1
  {
    var key := PageEndpoint(IntParam(offset, DefaultOffset), IntParam(limit, DefaultLimit));
    var first := ListPokemon(s, offset, limit, upstream, t1);
    var page1 := Fetch(s, key, upstream, t1);
    var mid := page1.state;
    // what the first call leaves under the page key
    var cachedBefore := Cached(s.cache, key, t1);
    assert mid.requests == s.requests + (if cachedBefore then [] else [key]);
    if page1.result.Ok? && page1.result.value.PageBody? {
      var eps := DetailEndpoints(page1.result.value.results);
      KeyNotAmongDetails(key, page1.result.value.results);
      MissedWithin(mid.cache, eps, t1);
      NotInMissed(key, mid.cache, eps, t1);
    }
    assert first.state.requests == mid.requests + SuffixOf(first.state.requests, |mid.requests|);
    assert key !in SuffixOf(first.state.requests, |mid.requests|) by {
      if page1.result.Ok? && page1.result.value.PageBody? {
        var eps := DetailEndpoints(page1.result.value.results);
        KeyNotAmongDetails(key, page1.result.value.results);
        NotInMissed(key, mid.cache, eps, t1);
      }
    }
    if cachedBefore {
      // the first call asked nothing for the page: the second asks at most once
      SecondListAsksAtMostOnce(first.state, offset, limit, upstream, t2, key);
      assert multiset(first.state.requests)[key] == multiset(s.requests)[key] by {
        assert first.state.requests == s.requests + SuffixOf(first.state.requests, |s.requests|);
      }
    } else {
      // the first call stored the page at t1, so the second one is answered from the cache
      assert mid.cache.entries[key] == TtlCache.Entry(upstream(key).value, t1, TtlCache.DefaultTtl);
      KeyKeptThroughList(s, offset, limit, upstream, t1, key);
      assert Cached(first.state.cache, key, t2);
      SecondListAsksNothing(first.state, offset, limit, upstream, t2, key);
      assert multiset(first.state.requests)[key] == multiset(s.requests)[key] + 1 by {
        assert first.state.requests == s.requests + [key] + SuffixOf(first.state.requests, |mid.requests|);
      }
    }
  }

  function SuffixOf(s: seq<string>, n: nat): seq<string>
    requires n <= |s|
  {
    s[n..]
  }

  lemma KeyNotAmongDetails(key: string, refs: seq<Ref>)
    requires exists o, l :: key == PageEndpoint(o, l)
    ensures key !in DetailEndpoints(refs)
  {
    var o, l :| key == PageEndpoint(o, l);
    forall i | 0 <= i < |refs| ensures DetailEndpoints(refs)[i] != key {
      DetailEndpointDistinct(refs[i].name, o, l);
    }
  }

  lemma NotInMissed(key: string, c: TtlCache.Cache<Value>, endpoints: seq<string>, now: int)
    requires key !in endpoints
    ensures key !in Missed(c, endpoints, now)
  {
    MissedWithin(c, endpoints, now);
  }

  /** The first list call leaves a page entry it stored where it was. */
  lemma KeyKeptThroughList(s: Backend, offset: Option<string>, limit: Option<string>,
                           upstream: Upstream, now: int, key: string)
    requires key == PageEndpoint(IntParam(offset, DefaultOffset), IntParam(limit, DefaultLimit))
    requires key in Fetch(s, key, upstream, now).state.cache.entries
    ensures var mid := Fetch(s, key, upstream, now).state;
      key in ListPokemon(s, offset, limit, upstream, now).state.cache.entries
      && ListPokemon(s, offset, limit, upstream, now).state.cache.entries[key] == mid.cache.entries[key]
  {
    var page := Fetch(s, key, upstream, now);
    if page.result.Ok? && page.result.value.PageBody? {
      KeyNotAmongDetails(key, page.result.value.results);
    }
  }

  lemma SecondListAsksAtMostOnce(s: Backend, offset: Option<string>, limit: Option<string>,
                                 upstream: Upstream, now: int, key: string)
    requires key == PageEndpoint(IntParam(offset, DefaultOffset), IntParam(limit, DefaultLimit))
    ensures multiset(ListPokemon(s, offset, limit, upstream, now).state.requests)[key] <= multiset(s.requests)[key] + 1
  {
    var page := Fetch(s, key, upstream, now);
    var r := ListPokemon(s, offset, limit, upstream, now);
    if page.result.Ok? && page.result.value.PageBody? {
      var eps := DetailEndpoints(page.result.value.results);
      KeyNotAmongDetails(key, page.result.value.results);
      NotInMissed(key, page.state.cache, eps, now);
      assert multiset(r.state.requests)[key] == multiset(page.state.requests)[key];
    }
  }

  lemma SecondListAsksNothing(s: Backend, offset: Option<string>, limit: Option<string>,
                              upstream: Upstream, now: int, key: string)
    requires key == PageEndpoint(IntParam(offset, DefaultOffset), IntParam(limit, DefaultLimit))
    requires Cached(s.cache, key, now)
    ensures multiset(ListPokemon(s, offset, limit, upstream, now).state.requests)[key] == multiset(s.requests)[key]
  {
    var page := Fetch(s, key, upstream, now);
    var r := ListPokemon(s, offset, limit, upstream, now);
    if page.result.Ok? && page.result.value.PageBody? {
      var eps := DetailEndpoints(page.result.value.results);
      KeyNotAmongDetails(key, page.result.value.results);
      NotInMissed(key, page.state.cache, eps, now);
      assert multiset(r.state.requests)[key] == multiset(page.state.requests)[key];
    }
  }

  // ---------------------------------------------------------------- GET /api/pokemon/:nameOrId

  /** The detail route's reply for what the fetch settled to: a body the route can read is a
      200 carrying its `pokemonDetails`; a thrown error whose response says 404 is a 404;
      anything else, including a body whose fields cannot be read, is a 500. */
  function DetailReply(f: Result<Value, Thrown>): (r: Reply<DetailRecord>)
    ensures r.Success? <==> f.Ok? && f.value.DetailBody? && f.value.detail.stats.Some?
    ensures r.Success? ==> Some(r.body) == ToDetailRecord(f.value)
    ensures r.Failure? ==> (r.status == 404 <==> f == Err(Thrown(Some(404))))
    ensures r.Failure? && r.status != 404 ==> r.status == 500
  {
    match f
    case Ok(v) =>
      var d := ToDetailRecord(v);
      if d.Some? then Success(d.value) else Failure(500, "Error fetching Pokémon details")
    case Err(e) =>
      if e.response == Some(404) then Failure(404, "Pokémon not found")
      else Failure(500, "Error fetching Pokémon details")
  }

  /** `GET /api/pokemon/:nameOrId`, as written: the name is lower-cased into the key. */
  function Detail(s: Backend, nameOrId: string, upstream: Upstream, now: int): (r: Served<DetailRecord>)
    ensures var f := Fetch(s, DetailEndpoint(Lower(nameOrId)), upstream, now);
      r.state == f.state && r.reply == DetailReply(f.result)
    // the fetch helper drops the upstream status, so no failure is ever a 404
    ensures r.reply.Failure? ==> r.reply.status == 500
  {
    var f := Fetch(s, DetailEndpoint(Lower(nameOrId)), upstream, now);
    Served(f.state, DetailReply(f.result))
  }

  /** An unknown name, which upstream answers with 404, is reported as a server error. */
  lemma DetailNotFoundIs500(s: Backend, nameOrId: string, upstream: Upstream, now: int)
    requires !Cached(s.cache, DetailEndpoint(Lower(nameOrId)), now)
    requires upstream(DetailEndpoint(Lower(nameOrId))) == Err(HttpStatus(404))
    ensures Detail(s, nameOrId, upstream, now).reply == Failure(500, "Error fetching Pokémon details")
  {
  }

  /** The fetch helper with the upstream status kept on the thrown error, as the detail
      route's `error.response.status` test expects. */
  function FetchKeepingStatus(s: Backend, endpoint: string, upstream: Upstream, now: int): (r: Fetched)
    ensures r.state == Fetch(s, endpoint, upstream, now).state
    ensures r.result.Ok? <==> Fetch(s, endpoint, upstream, now).result.Ok?
    ensures r.result.Ok? ==> r.result == Fetch(s, endpoint, upstream, now).result
    ensures r.result.Err? ==>
      r.result.error.response == (if upstream(endpoint).Err? && upstream(endpoint).error.HttpStatus?
                                  then Some(upstream(endpoint).error.code) else None)
  {
    var f := Fetch(s, endpoint, upstream, now);
    if f.result.Err? && upstream(endpoint).Err? && upstream(endpoint).error.HttpStatus? then
      f.(result := Err(Thrown(Some(upstream(endpoint).error.code))))
    else f
  }

  /** `GET /api/pokemon/:nameOrId` with the status kept: exactly an upstream 404 is a 404. */
  function DetailKeepingStatus(s: Backend, nameOrId: string, upstream: Upstream, now: int): (r: Served<DetailRecord>)
    ensures var key := DetailEndpoint(Lower(nameOrId));
      r.reply.Failure? && r.reply.status == 404
      <==> !Cached(s.cache, key, now) && upstream(key) == Err(HttpStatus(404))
    ensures r.state == Detail(s, nameOrId, upstream, now).state
    ensures r.reply.Success? <==> Detail(s, nameOrId, upstream, now).reply.Success?
  {
    var f := FetchKeepingStatus(s, DetailEndpoint(Lower(nameOrId)), upstream, now);
    Served(f.state, DetailReply(f.result))
  }

  // ---------------------------------------------------------------- GET /api/search/:query

  const MinQueryLength := 2
  const SearchLimit := 20
  const SnapshotKey := "all-pokemon-names"
  const SnapshotEndpoint := "/pokemon?limit=1500"
  const SnapshotTtl: nat := 7200

  /** `req.query.q || req.params.query`: an empty `q` counts as absent. */
  function Query(q: Option<string>, param: string): (r: string)
    ensures q.Some? && q.value != "" ==> r == q.value
    ensures q.None? || q.value == "" ==> r == param
  {
    if q.Some? && q.value != "" then q.value else param
  }

  /** The search test: the lower-cased query occurs in the lower-cased name. */
  predicate NameMatches(query: string, ref: Ref) {
    Includes(Lower(ref.name), Lower(query))
  }

  function Matches(refs: seq<Ref>, query: string): (r: seq<Ref>)
    ensures |r| <= |refs|
    ensures forall x :: x in r <==> x in refs && NameMatches(query, x)
  {
    var p := (x: Ref) => NameMatches(query, x);
    assert forall x :: x in Filter(refs, p) <==> x in refs && NameMatches(query, x) by {
      forall x ensures x in Filter(refs, p) <==> x in refs && p(x) {
        FilterMembership(refs, p, x);
      }
    }
    Filter(refs, p)
  }

  /** The search ignores the case of the query. */
  lemma MatchesIgnoreQueryCase(refs: seq<Ref>, query: string)
    ensures Matches(refs, query) == Matches(refs, Lower(query))
  {
    LowerIdempotent(query);
    FilterSamePredicate(refs, (x: Ref) => NameMatches(query, x), (x: Ref) => NameMatches(Lower(query), x));
  }

  datatype Snapshot = Snapshot(state: Backend, refs: Option<seq<Ref>>)

  /** The name listing the search runs over: the stored snapshot when it is live and
      truthy, otherwise the upstream's first 1500 entries, stored for two hours. `None`
      is a throw: the fetch failed, or the value is not an array. */
  function LoadSnapshot(s: Backend, upstream: Upstream, now: int): (r: Snapshot)
    // a live snapshot is used without asking upstream
    ensures Cached(s.cache, SnapshotKey, now) ==>
      && r.state.requests == s.requests
      && r.state.cache.entries == s.cache.entries
      && r.refs == (match s.cache.entries[SnapshotKey].value
                    case RefArray(refs) => Some(refs)
                    case _ => None)
    // otherwise it is fetched through the cache-through helper and stored
    ensures !Cached(s.cache, SnapshotKey, now) ==>
      r.state.requests == s.requests + (if Cached(s.cache, SnapshotEndpoint, now) then [] else [SnapshotEndpoint])
    ensures !Cached(s.cache, SnapshotKey, now) && !Cached(s.cache, SnapshotEndpoint, now) ==>
      && (r.refs.Some? <==> upstream(SnapshotEndpoint).Ok? && upstream(SnapshotEndpoint).value.PageBody?)
      && (r.refs.Some? ==> r.refs.value == upstream(SnapshotEndpoint).value.results)
    ensures !Cached(s.cache, SnapshotKey, now) && r.refs.Some? ==>
      SnapshotKey in r.state.cache.entries
      && r.state.cache.entries[SnapshotKey] == TtlCache.Entry(RefArray(r.refs.value), now, SnapshotTtl)
    // a fetched listing that is not a page stores `undefined`, unless it is `null` itself
    ensures !Cached(s.cache, SnapshotKey, now) && !Cached(s.cache, SnapshotEndpoint, now)
            && upstream(SnapshotEndpoint).Ok? && !upstream(SnapshotEndpoint).value.PageBody? ==>
      && (!upstream(SnapshotEndpoint).value.Nullish? ==>
            SnapshotKey in r.state.cache.entries
            && r.state.cache.entries[SnapshotKey] == TtlCache.Entry(Nullish, now, SnapshotTtl))
      && (upstream(SnapshotEndpoint).value.Nullish? && SnapshotKey in r.state.cache.entries ==>
            SnapshotKey in s.cache.entries && r.state.cache.entries[SnapshotKey] == s.cache.entries[SnapshotKey])
    // whatever the search runs over is what is stored
    ensures r.refs.Some? ==>
      SnapshotKey in r.state.cache.entries && r.state.cache.entries[SnapshotKey].value == RefArray(r.refs.value)
  {
    var l := TtlCache.Get(s.cache, SnapshotKey, now);
    var s1 := s.(cache := l.cache);
    if l.found.Some? && Truthy(l.found.value) then
      Snapshot(s1, if l.found.value.RefArray? then Some(l.found.value.refs) else None)
    else
      GetKeepsReadable(s.cache, SnapshotKey, now, SnapshotEndpoint);
      var f := Fetch(s1, SnapshotEndpoint, upstream, now);
      match f.result
      case Err(_) => Snapshot(f.state, None)
      case Ok(data) =>
        if data.PageBody? then
          Snapshot(f.state.(cache := TtlCache.Set(f.state.cache, SnapshotKey, RefArray(data.results), SnapshotTtl, now)),
                   Some(data.results))
        else if data.Nullish? then
          // reading `.results` of `null` throws before anything is stored
          Snapshot(f.state, None)
        else
          // `.results` of any other body is `undefined`, which is stored before `.filter` on it throws
          Snapshot(f.state.(cache := TtlCache.Set(f.state.cache, SnapshotKey, Nullish, SnapshotTtl, now)), None)
  }

  /** A snapshot fetched at `t1` serves every search for the next two hours. */
  lemma SnapshotReused(s: Backend, upstream: Upstream, t1: int, t2: int)
    requires !Cached(s.cache, SnapshotKey, t1)
    requires LoadSnapshot(s, upstream, t1).refs.Some?
    requires t1 <= t2 < t1 + SnapshotTtl
    ensures var first := LoadSnapshot(s, upstream, t1);
      var second := LoadSnapshot(first.state, upstream, t2);
      second.refs == first.refs && second.state.requests == first.state.requests
  {
  }

  /** An empty (`""`) listing body leaves `undefined` stored under the snapshot key, so
      the next search within two hours finds the key, counting a hit, and still asks
      upstream again. */
  lemma FalsyListingStoresUndefined(s: Backend, upstream: Upstream, t1: int, t2: int)
    requires !Cached(s.cache, SnapshotKey, t1) && !Cached(s.cache, SnapshotEndpoint, t1)
    requires upstream(SnapshotEndpoint) == Ok(Falsy)
    requires t1 <= t2 < t1 + SnapshotTtl
    ensures var first := LoadSnapshot(s, upstream, t1);
      var second := LoadSnapshot(first.state, upstream, t2);
      && first.refs.None? && second.refs.None?
      && SnapshotKey in first.state.cache.entries
      && second.state.cache.hits >= first.state.cache.hits + 1
      && second.state.requests == first.state.requests + [SnapshotEndpoint]
  {
    var first := LoadSnapshot(s, upstream, t1);
    assert first.state.cache.entries[SnapshotKey] == TtlCache.Entry(Nullish, t1, SnapshotTtl);
    assert !Cached(first.state.cache, SnapshotKey, t2);
  }

  datatype SearchBody = SearchBody(count: nat, results: seq<SearchHit>)

  /** `GET /api/search/:query`: a query shorter than two UTF-16 code units is refused;
      otherwise every name containing the query counts, the first 20 are enriched, and
      those whose details fail are dropped. */
  function Search(s: Backend, q: Option<string>, param: string, upstream: Upstream, now: int)
    : (r: Served<SearchBody>)
    ensures Utf16Length(Query(q, param)) < MinQueryLength ==>
      r == Served(s, Failure(400, "Query must be at least 2 characters"))
    ensures Utf16Length(Query(q, param)) >= MinQueryLength ==>
      var snap := LoadSnapshot(s, upstream, now);
      && (snap.refs.None? ==> r == Served(snap.state, Failure(500, "Error searching Pokémon")))
      && (snap.refs.Some? ==>
            var m := Matches(snap.refs.value, Query(q, param));
            var shown := m[..if |m| < SearchLimit then |m| else SearchLimit];
            var eps := DetailEndpoints(shown);
            && r.reply.Success?
            && r.reply.body.count == |m|
            && r.reply.body.results == Somes(Project(LoneResults(snap.state, eps, upstream, now), ToSearchHit))
            && |r.reply.body.results| <= SearchLimit
            && r.state.requests == snap.state.requests + Missed(snap.state.cache, eps, now)
            && SnapshotKey in r.state.cache.entries
            && r.state.cache.entries[SnapshotKey] == snap.state.cache.entries[SnapshotKey])
  {
    var query := Query(q, param);
    if Utf16Length(query) < MinQueryLength then Served(s, Failure(400, "Query must be at least 2 characters"))
    else
      var snap := LoadSnapshot(s, upstream, now);
      if snap.refs.None? then Served(snap.state, Failure(500, "Error searching Pokémon"))
      else
        var m := Matches(snap.refs.value, query);
        var shown := m[..if |m| < SearchLimit then |m| else SearchLimit];
        var eps := DetailEndpoints(shown);
        assert SnapshotKey !in eps by {
          forall i | 0 <= i < |eps| ensures eps[i] != SnapshotKey {
            DetailEndpointDistinct(shown[i].name, 0, 0);
          }
        }
        var e := Enrich(snap.state, eps, ToSearchHit, upstream, now);
        Served(e.0, Success(SearchBody(|m|, e.1)))
  }

  /** The length test counts UTF-16 code units: a single character outside the Basic
      Multilingual Plane is long enough to be searched for. */
  lemma SearchOneAstralCharacter(s: Backend, c: char, param: string, upstream: Upstream, now: int)
    requires c as int >= 0x1_0000
    ensures Search(s, Some([c]), param, upstream, now).reply != Failure(400, "Query must be at least 2 characters")
  {
    Utf16LengthAstral(c);
  }

  /** A second search within two hours of one that fetched the name listing does not
      ask upstream for the listing again. */
  lemma SearchReusesSnapshot(s: Backend, q1: Option<string>, p1: string, q2: Option<string>, p2: string,
                             upstream: Upstream, t1: int, t2: int)
    requires Utf16Length(Query(q1, p1)) >= MinQueryLength
    requires !Cached(s.cache, SnapshotKey, t1)
    requires Search(s, q1, p1, upstream, t1).reply.Success?
    requires t1 <= t2 < t1 + SnapshotTtl
    ensures var first := Search(s, q1, p1, upstream, t1);
      var second := Search(first.state, q2, p2, upstream, t2);
      && second.state.requests[..|first.state.requests|] == first.state.requests
      && SnapshotEndpoint !in second.state.requests[|first.state.requests|..]
  {
    SearchStoresSnapshot(s, q1, p1, upstream, t1, t2);
    SearchOverLiveSnapshot(Search(s, q1, p1, upstream, t1).state, q2, p2, upstream, t2);
  }

  /** A successful search that had to fetch the listing leaves it cached for two hours. */
  lemma SearchStoresSnapshot(s: Backend, q: Option<string>, p: string, upstream: Upstream, t1: int, t2: int)
    requires Utf16Length(Query(q, p)) >= MinQueryLength
    requires !Cached(s.cache, SnapshotKey, t1)
    requires Search(s, q, p, upstream, t1).reply.Success?
    requires t1 <= t2 < t1 + SnapshotTtl
    ensures Cached(Search(s, q, p, upstream, t1).state.cache, SnapshotKey, t2)
  {
    var snap1 := LoadSnapshot(s, upstream, t1);
    assert Search(s, q, p, upstream, t1).state.cache.entries[SnapshotKey]
      == TtlCache.Entry(RefArray(snap1.refs.value), t1, SnapshotTtl);
  }

  /** A search over a live snapshot asks upstream only for details, never for the listing. */
  lemma SearchOverLiveSnapshot(st: Backend, q: Option<string>, p: string, upstream: Upstream, now: int)
    requires Cached(st.cache, SnapshotKey, now)
    ensures var r := Search(st, q, p, upstream, now);
      && r.state.requests[..|st.requests|] == st.requests
      && SnapshotEndpoint !in r.state.requests[|st.requests|..]
  {
    if Utf16Length(Query(q, p)) >= MinQueryLength {
      var snap := LoadSnapshot(st, upstream, now);
      assert snap.state.requests == st.requests;
      if snap.refs.Some? {
        var m := Matches(snap.refs.value, Query(q, p));
        var shown := m[..if |m| < SearchLimit then |m| else SearchLimit];
        var eps := DetailEndpoints(shown);
        forall i | 0 <= i < |eps| ensures eps[i] != SnapshotEndpoint {
          DetailEndpointDistinct(shown[i].name, 0, 0);
        }
        NotInMissed(SnapshotEndpoint, snap.state.cache, eps, now);
        assert Search(st, q, p, upstream, now).state.requests[|st.requests|..]
          == Missed(snap.state.cache, eps, now);
      }
    }
  }

  // ---------------------------------------------------------------- cache maintenance

  /** `GET /api/cache/stats`. */
  function CacheStats(s: Backend): (r: TtlCache.Stats)
    ensures r.keys == |s.cache.entries|
    ensures r.hits == s.cache.hits && r.misses == s.cache.misses
    ensures 0.0 <= r.hitRate <= 1.0
    ensures r.hits + r.misses > 0 ==> r.hitRate * (r.hits + r.misses) as real == r.hits as real
  {
    TtlCache.StatsOf(s.cache)
  }

  /** `DELETE /api/cache`: `flushAll` empties the cache and, in the cache library, restarts
      its counters. */
  function ClearCache(s: Backend): (r: Served<string>)
    ensures r.state.cache.entries == map[] && r.state.cache.hits == 0 && r.state.cache.misses == 0
    ensures r.state.requests == s.requests
    ensures r.reply == Success("Cache cleared successfully")
  {
    Served(s.(cache := TtlCache.Flush(s.cache, true)), Success("Cache cleared successfully"))
  }

  /** After a clear, the next fetch of any endpoint goes upstream. */
  lemma ClearThenFetchAsks(s: Backend, endpoint: string, upstream: Upstream, now: int)
    ensures var cleared := ClearCache(s).state;
      Fetch(cleared, endpoint, upstream, now).state.requests == s.requests + [endpoint]
  {
  }
}
