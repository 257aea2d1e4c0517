# Pokédex challenge: a Dafny model

This project models the logic of a small Pokédex application: an Express backend that
proxies a public catalogue API behind a TTL cache and keeps per-user favourites in
memory, and a React frontend that filters, sorts and pages the loaded list, draws the page
strip, and keeps favourites and cached values in the browser.

Each component is a Dafny module of pure functions over immutable datatypes:

| module | models |
|---|---|
| `TtlCache` | the backend's `NodeCache`: entries with insertion time and TTL, lazy expiry, hit/miss counters, `flushAll` |
| `Fetcher` | `fetchFromPokeAPI` (cache-through call) and the `Promise.all` fan-out built on it |
| `Server` | the list, detail, search and cache-maintenance routes |
| `FavoritesStore` | `FavoritesManager`: a map from user id to an ordered set of favourite ids |
| `FavoritesRoutes` | the favourites routes: request validation, user id defaults, the enriched listing |
| `AppView` | the `filteredPokemon` pipeline, page slicing, the active-filter counter and the page-resetting handlers of `App` |
| `Pagination` | the page window, previous/next, and the first/last shortcuts of the page strip |
| `FilterPanel` | the filter handlers, `adjustColor` and the type icons |
| `FavoritesHook` | the list updates, sync flag and favourites fan-out of `useFavorites` |
| `LocalCache` | the expiry-on-read and write of `useLocalCache` |
| `Card` | the id label, name, type colour and favourite button of `PokemonCard` |
| `Catalog`, `Seqs`, `Text`, `Sorting`, `Wrappers` | records, and the JavaScript built-ins the code uses (`filter`, `new Set`, `trim`, `toLowerCase`, `includes`, `padStart`, `toString(radix)`, `parseInt`, `sort`) |

The environment becomes parameters:

- The upstream API is a function from endpoint to a JSON body or an error (`Fetcher.Upstream`).
- The clock is an argument `now`: seconds for the backend cache, milliseconds for `useLocalCache`.
- The backend state records every endpoint requested upstream. This is how "a cache hit does not call upstream" is stated.
- `localStorage` is a map from key to what the stored text parses to.
- Whether a favourites sync request succeeds is a boolean argument.

## Model

| member | source | states |
|---|---|---|
| TtlCache.Empty | backend/server.js:12 | a new cache holds no entry and zero hits and misses |
| TtlCache.Get | backend/server.js:26-30 | a read finds the value exactly when the entry is live (before insertion time plus TTL); a find counts a hit, anything else counts a miss and drops the expired entry |
| TtlCache.Set | backend/server.js:38 | a store replaces the entry under its key with the value, the time and the TTL; other entries and the counters are untouched |
| TtlCache.Flush | backend/server.js:343-346 | a flush leaves no entry; the counters restart or are kept, as the flag says |
| TtlCache.SetThenGet | backend/server.js:26-38 | a value stored at t is read back at any time before t + ttl |
| TtlCache.GetAfterExpiry | backend/server.js:26-38 | from t + ttl on, the stored value reads as absent and is dropped |
| TtlCache.GetAllCountsEveryRead | backend/server.js:329-337 | over any burst of reads, hits plus misses grow by the number of reads, and hits by the number of reads that found a value |
| TtlCache.GetAll | backend/server.js:68-76 | a burst of reads gives one answer per key, each the value of that key's live entry when the burst starts or nothing if it has none; a key that is not read keeps its entry, and no entry is added |
| TtlCache.GetKeepsLive | backend/server.js:28 | a read leaves every live entry readable and unchanged, and makes no expired entry live |
| TtlCache.HitRate | backend/server.js:335 | the hit rate lies in [0, 1], is 0 with no reads, satisfies rate × (hits + misses) = hits otherwise, and is 0 exactly when there was no hit |
| TtlCache.StatsOf | backend/server.js:329-337 | the stats report the number of stored keys and the hit rate of the counters |
| Fetcher.Start | backend/server.js:26-30 | the probe hits exactly when a live, truthy value is cached, returns that value, and asks nothing upstream |
| Fetcher.Finish | backend/server.js:33-42 | the call settles to the cached value on a hit, to the upstream body on success, and to a thrown error without a response on failure; only a miss makes an outbound call, and entries under other keys are untouched |
| Fetcher.Fetch | backend/server.js:24-43 | a hit returns the cached value without calling upstream or storing; a miss calls upstream once, stores a success under the endpoint with the default TTL, stores nothing on failure and throws; other keys are never touched |
| Fetcher.FetchHitIgnoresUpstream | backend/server.js:27-30 | on a hit the result and the state do not depend on the upstream at all |
| Fetcher.FalsyCachedValueRefetches | backend/server.js:27-28 | a live but falsy cached value counts as a hit for the counters yet is fetched again from upstream |
| Fetcher.FetchTwiceAsksOnce | backend/server.js:24-43 | when upstream answers the endpoint with a truthy body, two fetches of it at the same time reach upstream at most once and return the same result (a failure or a falsy body is fetched again) |
| Fetcher.GetKeepsReadable | backend/server.js:27 | a read of one key leaves every other cached value readable, with the same entry |
| Fetcher.StartAll | backend/server.js:68-76 | the probes of a fan-out, in order, are hits exactly for the endpoints cached when the fan-out starts |
| Fetcher.FinishAll | backend/server.js:68-76 | the completed fan-out has one result per endpoint, in position, each the settlement of its probe; exactly the missed endpoints are requested, in order |
| Fetcher.MissedProbesIsMissed | backend/server.js:68-76 | the endpoints whose probe missed are exactly the endpoints not cached at the start |
| Fetcher.FanOut | backend/server.js:68-76 | `Promise.all` over the fetch: slot i holds what a lone fetch of endpoint i returns, the requests are exactly the cache misses in order, and entries outside the batch are untouched |
| Fetcher.Settle | backend/server.js:28-42 | a hit settles to the cached value; a miss settles to the upstream body on success and otherwise to an error that carries no response |
| Fetcher.Missed | backend/server.js:68-76 | the missed endpoints of a batch are exactly its endpoints that are not cached, never more of them than the batch has |
| Fetcher.MissedWithin | backend/server.js:68-76 | every missed endpoint belongs to the batch |
| Fetcher.MissedProbes | backend/server.js:68-76 | the endpoints of the missed probes belong to the batch: none when every probe hit, all of them when every probe missed |
| Server.IntParam | backend/server.js:52-53 | a parameter is the number it parses to, unless it is missing, unparseable or 0, when it is the default |
| Server.IntParamOfIntToString | backend/server.js:52-53 | a decimal number passed as a parameter is read back, 0 excepted |
| Server.DetailEndpoints | backend/server.js:68-70 | one detail endpoint per reference, in order |
| Server.PageEndpoint | backend/server.js:55 | the list key starts with the `/pokemon?offset=` prefix; PageEndpointInjective shows that it determines offset and limit |
| Server.DetailEndpoint | backend/server.js:61 | the detail key is `/pokemon/` followed by the name, so the name can be read back from it |
| Server.PageEndpointInjective | backend/server.js:55 | the page cache key determines offset and limit |
| Server.PageEndpointParts | backend/server.js:55 | the page key splits back into its offset text and its limit text |
| Server.SplitAtSeparator | backend/server.js:55 | the text on each side of the first separator is determined by the whole |
| Server.DetailEndpointDistinct | backend/server.js:55-97 | a detail key never equals a page key, the snapshot endpoint or the snapshot key |
| Server.LoneResults | backend/server.js:68-76 | one result per endpoint, each what a lone fetch from the starting state returns |
| Server.Project | backend/server.js:69-74 | each slot is the record read from a successful body, or null for a failure or an unreadable body |
| Server.Enrich | backend/server.js:58-76 | the enriched records are those of the successful lone fetches, in request order, at most one per endpoint; exactly the cache misses are requested |
| Server.EnrichKeepsAll | backend/server.js:58-76 | when every fetch yields a readable body nothing is dropped and record i belongs to endpoint i |
| Server.ListPokemon | backend/server.js:50-88 | a failed page fetch is a 500; otherwise count, next and previous are copied from the page and results are the enriched references that succeeded, in order |
| Server.ListTwiceAsksPageOnce | backend/server.js:50-88 | two list requests for the same page within the TTL request that page upstream at most once |
| Server.KeyNotAmongDetails | backend/server.js:55-70 | a page key is never among a page's detail endpoints |
| Server.NotInMissed | backend/server.js:68-76 | an endpoint outside a batch is never among the batch's misses |
| Server.KeyKeptThroughList | backend/server.js:55-76 | the enrichment leaves the page's cache entry as the page fetch stored it |
| Server.SecondListAsksAtMostOnce | backend/server.js:55-76 | a list request asks upstream for its page at most once |
| Server.SecondListAsksNothing | backend/server.js:55-76 | a list request whose page is cached does not ask upstream for the page |
| Server.DetailReply | backend/server.js:99-129 | a detail body with readable stats is a 200 carrying the route's record (four sprites, abilities with `is_hidden`, stats, base experience); a thrown error with response 404 is a 404; every other failure, including a body without stats, is a 500 |
| Server.Detail | backend/server.js:94-131 | the route as written: the lower-cased name is fetched through the cache, and every failure is a 500 |
| Server.DetailNotFoundIs500 | backend/server.js:41-129 | an unknown name that upstream answers with 404 is reported as a 500 |
| Server.FetchKeepingStatus | backend/server.js:24-43 | the fetch with the upstream status kept on the error; state and success are those of the original |
| Server.DetailKeepingStatus | backend/server.js:94-131 | the detail route answers 404 exactly when the item is not cached and upstream answers 404; otherwise it agrees with the route as written |
| Server.Query | backend/server.js:139 | the query string wins when it is non-empty, otherwise the path parameter is used |
| Server.Matches | backend/server.js:156-158 | the matches are exactly the snapshot entries whose lower-cased name contains the lower-cased query, never more than the snapshot |
| Server.MatchesIgnoreQueryCase | backend/server.js:156-158 | the matches do not depend on the case of the query |
| Server.LoadSnapshot | backend/server.js:146-153 | a live snapshot is used without asking upstream; otherwise the 1500-entry listing is fetched through the cache and stored for 7200 seconds; a fetched body that is not a page stores `undefined` unless it is `null` itself, which stores nothing; whatever the search runs over is what is stored |
| Server.FalsyListingStoresUndefined | backend/server.js:146-153 | after an empty listing body, the next search within two hours finds the stored `undefined` (a hit), still fails, and asks upstream again |
| Server.SnapshotReused | backend/server.js:146-153 | a snapshot fetched at t1 is used unchanged, with no new request, up to t1 + 7200 |
| Server.Search | backend/server.js:137-188 | a query under 2 UTF-16 code units is a 400 that touches neither cache nor upstream; a failed snapshot is a 500; otherwise count is the number of matches and results are the successful enrichments of the first 20 matches, in order |
| Server.SearchOneAstralCharacter | backend/server.js:141 | a query of one character outside the Basic Multilingual Plane is not refused, since its length is 2 |
| Server.SearchReusesSnapshot | backend/server.js:146-153 | a search within two hours of one that fetched the listing does not request the listing again |
| Server.SearchStoresSnapshot | backend/server.js:146-153 | a successful search that fetched the listing leaves it cached for the next two hours |
| Server.SearchOverLiveSnapshot | backend/server.js:146-178 | a search over a live snapshot only adds detail requests, never the listing |
| Server.CacheStats | backend/server.js:329-337 | the reply reports the number of keys and the counters, with a hit rate in [0, 1] that is hits / (hits + misses) when there was a read |
| Server.ClearCache | backend/server.js:343-346 | after a clear no entry and no counter is left; requests are not touched |
| Server.ClearThenFetchAsks | backend/server.js:343-346 | after a clear, the next fetch of any endpoint goes upstream |
| FavoritesStore.Empty | backend/favorites.js:8 | the empty store has no user and is well-formed |
| FavoritesStore.GetFavorites | backend/favorites.js:15-20 | an unknown user has no favourites; a known user's are returned in insertion order |
| FavoritesStore.IsFavorite | backend/favorites.js:70-75 | membership in the user's favourites, false for an unknown user |
| FavoritesStore.AddFavorite | backend/favorites.js:27-40 | afterwards the id is a favourite, the reply has success and the new set size, no other id and no other user changes, a new id is appended, and re-adding a present id changes nothing |
| FavoritesStore.RemoveFavorite | backend/favorites.js:47-63 | an unknown user fails with a message and changes nothing; for a known user success holds exactly when the id was present, the id is absent afterwards, and the total is the new size; nothing else changes |
| FavoritesStore.ToggleFavorite | backend/favorites.js:82-88 | the id's membership flips, no other id or user changes, and the reply is a success |
| FavoritesStore.AddThenRemove | backend/favorites.js:27-63 | removing an id just added to a known user's set restores the store |
| FavoritesStore.RestoreEntry | backend/favorites.js:8 | writing an entry back over a change gives the map back |
| FavoritesStore.AddNewUsers | backend/favorites.js:27-40 | adding a new id to a known user appends it to that user's set |
| FavoritesStore.RemoveKnownUsers | backend/favorites.js:55-62 | removing from a known user replaces that user's set by the set without the id |
| FavoritesStore.AddCountsDistinct | backend/favorites.js:36-39 | the reported total grows by one exactly when the id was new |
| FavoritesRoutes.BodyPokemonId | backend/server.js:242-244 | a body id passes exactly when it is a non-zero number |
| FavoritesRoutes.PathPokemonId | backend/server.js:261-266 | a path id passes exactly when parseInt yields a number other than 0 |
| FavoritesRoutes.PathPokemonIdOfIntToString | backend/server.js:261-266 | every non-zero decimal id passes the path check and is read back |
| FavoritesRoutes.BodyUser | backend/server.js:240 | a missing body userId means the default user |
| FavoritesRoutes.QueryUser | backend/server.js:262 | a missing or empty query userId means the default user |
| FavoritesRoutes.UserDefaultsAgree | backend/server.js:240-262 | the body and the query name the same user except for the empty id |
| FavoritesRoutes.PostFavorite | backend/server.js:238-252 | an invalid id is a 400 that changes nothing; otherwise the id becomes a favourite of the user, the reply reports the new size, and nothing else changes |
| FavoritesRoutes.DeleteFavorite | backend/server.js:259-274 | an invalid id is a 400; otherwise the id is no longer a favourite, the reply says whether it was one, an unknown user gets success false, and nothing else changes |
| FavoritesRoutes.ToggleRoute | backend/server.js:281-298 | an invalid id is a 400; otherwise membership flips and the reported flag is the new membership |
| FavoritesRoutes.ToggleRouteTwice | backend/server.js:281-298 | toggling the same id twice leaves every membership as it was |
| FavoritesRoutes.CheckFavorite | backend/server.js:304-319 | an invalid id is a 400; otherwise the flag is the id's membership for the user |
| FavoritesRoutes.PostThenCheck | backend/server.js:238-319 | an id added through the body is then reported as a favourite by the check route |
| FavoritesRoutes.DeleteThenCheck | backend/server.js:259-319 | an id deleted through the path is then reported as not a favourite |
| FavoritesRoutes.FavoriteEndpoints | backend/server.js:204-206 | one detail endpoint per stored id, in order |
| FavoritesRoutes.ListFavorites | backend/server.js:198-231 | count is the number of stored ids; results are the successfully fetched details in insertion order, never more than count |
| FavoritesRoutes.ListFavoritesCountsFailures | backend/server.js:198-231 | count exceeds the number of results by exactly the number of failed detail fetches |
| Catalog.ToPokemon | backend/server.js:62-70 | a list record is read from exactly the detail bodies and carries their id, name, types, front sprite, sizes and ability names |
| Catalog.ToSearchHit | backend/server.js:166-171 | a search record is read from exactly the detail bodies, with their id, name, types and sprite |
| Catalog.ToFavoriteHit | backend/server.js:206-216 | a favourites record is read from exactly the detail bodies and carries their id, name, types, front sprite, height and weight |
| Catalog.FavoriteHitIsPokemonSummary | backend/server.js:62-215 | the favourites record is the list record without the ability names |
| Catalog.SearchHitIsPokemonSummary | backend/server.js:69-171 | the search record is the list record without sizes and abilities |
| Catalog.AbilityNames | backend/server.js:69 | one name per ability entry, in order |
| Catalog.ToDetailRecord | backend/server.js:99-120 | the detail record is read exactly from detail bodies with readable stats, and carries their four sprites, abilities with `is_hidden`, stats and base experience |
| Catalog.DetailRecordExtendsPokemon | backend/server.js:62-120 | a body the detail route can show is one the list route can show, with the same id, name, types, sizes, front sprite and ability names |
| AppView.ActiveBound | frontend/src/App.js:146-154 | an id bound applies exactly when it is a non-zero number, and then it is that number |
| AppView.MatchesQuery | frontend/src/App.js:129-131 | the empty query matches everything, the lower-cased name and the decimal id match themselves, and a match is no longer than the name or the id text |
| AppView.SearchStep | frontend/src/App.js:125-134 | a blank query keeps the list; otherwise exactly the loaded items whose name or id contains the trimmed, lower-cased query are kept |
| AppView.TypeStep | frontend/src/App.js:137-142 | no selected type keeps the list; otherwise exactly the items sharing a selected type are kept |
| AppView.MinStep | frontend/src/App.js:146-151 | an inactive bound keeps the list; otherwise exactly the items whose id reaches the bound are kept |
| AppView.MaxStep | frontend/src/App.js:153-158 | an inactive bound keeps the list; otherwise exactly the items whose id does not exceed the bound are kept |
| AppView.Selected | frontend/src/App.js:125-158 | the four steps keep exactly the loaded items that pass the reference condition |
| AppView.Passes | frontend/src/App.js:125-158 | the reference condition holds of every item when no filter is active |
| AppView.PassesSourceForm | frontend/src/App.js:126-127 | the reference condition, which trims the query before lower-casing it, is the source's test, which lower-cases first |
| AppView.StepIsFilter | frontend/src/App.js:126-158 | a step that is skipped or applied is a filter by its condition or by true |
| AppView.StepAfterFilter | frontend/src/App.js:126-158 | a step applied after a filter is a single filter by the conjunction |
| AppView.SelectedIsFilter | frontend/src/App.js:126-158 | the four filter steps keep exactly the items meeting the reference condition (query match, shared type, both id bounds), in loaded order |
| AppView.SearchStage | frontend/src/App.js:125-134 | the search step is a filter by the search part of the reference condition |
| AppView.TypeStage | frontend/src/App.js:137-142 | the type step after the search step is a filter by the first two parts of the condition |
| AppView.MinStage | frontend/src/App.js:146-151 | the minimum-id step after them is a filter by the first three parts |
| AppView.MaxStage | frontend/src/App.js:153-158 | the maximum-id step after them is a filter by the whole reference condition |
| AppView.IdOrdersTotal | frontend/src/App.js:163-168 | the id comparators are total and transitive |
| AppView.NameOrdersTotal | frontend/src/App.js:169-174 | the name comparators are total and transitive |
| AppView.SortStep | frontend/src/App.js:162-177 | each known order yields a permutation sorted by it; an unknown order leaves the list unchanged |
| AppView.FilterPokemon | frontend/src/App.js:115-182 | outside the `all` view the list is returned unchanged; in it, the result is a permutation of the items passing every filter, sorted by the chosen order |
| AppView.FilterPokemonMembership | frontend/src/App.js:120-158 | an item is shown exactly when it was loaded and passes every filter, as many times as it was loaded |
| AppView.JsSlice | frontend/src/App.js:191 | a slice with non-negative bounds is the clamped sub-sequence |
| AppView.Paginate | frontend/src/App.js:188-192 | page p holds the items at positions (p-1)·20 up to p·20, at most 20 of them |
| AppView.TotalPages | frontend/src/App.js:194 | the page count is the ceiling of n / 20 |
| AppView.PagesCoverList | frontend/src/App.js:188-194 | the pages read in order are the whole list |
| AppView.PageOfIndex | frontend/src/App.js:188-194 | item i is on page i / 20 + 1, at position i mod 20 |
| AppView.ActiveFilterCount | frontend/src/App.js:266-272 | the count is at most 3, and 0 exactly when no type, no id bound and no search is set |
| AppView.NoActiveFilterKeepsAll | frontend/src/App.js:266-272 | with no active filter the view holds every loaded item |
| AppView.HandleSearch | frontend/src/App.js:200-204 | the query is replaced and the page goes back to 1; nothing else changes |
| AppView.HandleFilterChange | frontend/src/App.js:206-210 | the filters are replaced and the page goes back to 1; nothing else changes |
| AppView.HandlePageChange | frontend/src/App.js:212-216 | only the page changes |
| AppView.HandleViewModeChange | frontend/src/App.js:218-235 | the mode is set, the query, page and list are reset, and the filters are cleared only for the favourites view |
| AppView.ClearAllFilters | frontend/src/App.js:250-260 | the query and the filters return to their defaults and the page to 1 |
| AppView.ChangesResetPage | frontend/src/App.js:200-260 | every change of what is shown returns to page 1, which then holds the first items of the view |
| AppView.ClearShowsAllById | frontend/src/App.js:250-272 | after clearing no filter is active and the whole loaded list is shown by ascending id |
| Pagination.Range | frontend/src/components/Pagination.js:31-33 | the integers from lo to hi, in order |
| Pagination.Window | frontend/src/components/Pagination.js:24-29 | the window lies in 1..total and spans at most five pages; for a valid current page it holds that page and spans min(5, total) pages |
| Pagination.PageNumbers | frontend/src/components/Pagination.js:20-36 | consecutive ascending pages, at most 5, all in 1..total, none when there are no pages; for a valid current page, min(5, total) pages including the current one |
| Pagination.Previous | frontend/src/components/Pagination.js:8-12 | previous asks for current - 1 exactly when current > 1 |
| Pagination.Next | frontend/src/components/Pagination.js:14-18 | next asks for current + 1 exactly when current < total |
| Pagination.PreviousNextInverse | frontend/src/components/Pagination.js:8-18 | within the pages, previous and next undo each other |
| Pagination.Buttons | frontend/src/components/Pagination.js:64-72 | one button per window page, marked active exactly on the current page |
| Pagination.NumbersConcat | frontend/src/components/Pagination.js:52-84 | the page numbers of a strip are those of its parts, in order |
| Pagination.NumbersOfButtons | frontend/src/components/Pagination.js:64-72 | the window's buttons show exactly the window's pages |
| Pagination.StripAsWritten | frontend/src/components/Pagination.js:52-84 | the strip as written: the pages shown are page 1 exactly when current > 3, then the window, then the last page exactly when current < total - 2, whatever the window holds; on a valid page `...` follows the first shortcut exactly when current > 4 and precedes the last exactly when current < total - 3 |
| Pagination.StripAsWrittenRepeatsFirstPage | frontend/src/components/Pagination.js:52-72 | on page 4 of 4 the strip shows page 1 twice |
| Pagination.StripAsWrittenEllipsisBeforeSamePage | frontend/src/components/Pagination.js:52-72 | on page 5 of 5 the strip begins 1 … 1 |
| Pagination.StripAsWrittenRepeatsLastPage | frontend/src/components/Pagination.js:64-84 | on page 1 of 4 the strip shows page 4 twice |
| Pagination.NumbersHead | frontend/src/components/Pagination.js:52-62 | the corrected first shortcut shows page 1 exactly when the window starts later |
| Pagination.NumbersTail | frontend/src/components/Pagination.js:74-84 | the corrected last shortcut shows the last page exactly when the window ends earlier |
| Pagination.StripNumbers | frontend/src/components/Pagination.js:52-84 | the corrected strip shows 1 when the window starts later, then the window, then the last page when the window ends earlier |
| Pagination.StripIncreasing | frontend/src/components/Pagination.js:52-84 | the corrected strip shows each page at most once, strictly ascending from 1 to the last page, with the current page among them |
| Pagination.FramedIncreasing | frontend/src/components/Pagination.js:52-84 | a window framed by the first and last page ascends strictly from 1 to the last page |
| Pagination.StripEllipsisMarksGaps | frontend/src/components/Pagination.js:55-82 | in the corrected strip an ellipsis follows the first shortcut, or precedes the last, exactly when pages are skipped there |
| Pagination.Head | frontend/src/components/Pagination.js:52-62 | the corrected first shortcut: nothing when the window starts at page 1, otherwise page 1, followed by an ellipsis exactly when pages are skipped |
| Pagination.Tail | frontend/src/components/Pagination.js:74-84 | the corrected last shortcut: nothing when the window ends at the last page, otherwise the last page, preceded by an ellipsis exactly when pages are skipped |
| Pagination.Strip | frontend/src/components/Pagination.js:52-84 | the corrected strip starts at page 1, ends at the last page, marks the current page active, and has at most nine items |
| FilterPanel.TypeToggle | frontend/src/components/FilterPanel.js:26-32 | a selected type is removed everywhere, an unselected one appended; only that type's membership flips and the other fields are copied |
| FilterPanel.TypeToggleTwice | frontend/src/components/FilterPanel.js:26-32 | selecting and then deselecting a type restores the filters |
| FilterPanel.SortChange | frontend/src/components/FilterPanel.js:34-36 | only the sort order changes |
| FilterPanel.ParseBound | frontend/src/components/FilterPanel.js:38-41 | a bound is set exactly when the text parses to a non-zero number, and then it is that number |
| FilterPanel.IdRangeChange | frontend/src/components/FilterPanel.js:38-41 | only the named bound changes, to the parsed text |
| FilterPanel.ParseBoundOfIntToString | frontend/src/components/FilterPanel.js:38-41 | a typed number is stored as that number, 0 excepted |
| FilterPanel.StripHash | frontend/src/components/FilterPanel.js:139 | a leading `#` is dropped and text without `#` is unchanged |
| FilterPanel.Substr | frontend/src/components/FilterPanel.js:140-142 | the sub-string at start of the given length, cut at the end of the text |
| FilterPanel.Clamp | frontend/src/components/FilterPanel.js:140-142 | a value clamped into 0..255 |
| FilterPanel.Channel | frontend/src/components/FilterPanel.js:140-142 | an adjusted channel, when it parses, lies in 0..255 |
| FilterPanel.AdjustColor | frontend/src/components/FilterPanel.js:138-144 | the output starts with `#` |
| FilterPanel.AdjustColorChannels | frontend/src/components/FilterPanel.js:138-144 | for a well-formed colour the output is `#` and six lower-case hex digits, each channel the input's moved by the amount and clamped to a byte |
| FilterPanel.AdjustColorIsColorOf | frontend/src/components/FilterPanel.js:138-144 | the output writes the three adjusted bytes |
| FilterPanel.ByteDigits | frontend/src/components/FilterPanel.js:143 | a byte is written as two lower-case hex digits |
| FilterPanel.ByteDigitsSpell | frontend/src/components/FilterPanel.js:143 | the two digits read back as the byte |
| FilterPanel.ChannelTextIsPaddedHex | frontend/src/components/FilterPanel.js:143 | the two digits are what `toString(16)` padded to width 2 with `0` writes |
| FilterPanel.HexOfWideByte | frontend/src/components/FilterPanel.js:143 | a byte of at least 16 takes exactly two hex digits |
| FilterPanel.HexPairParses | frontend/src/components/FilterPanel.js:140-142 | parseInt in base 16 reads two hex digits as their byte |
| FilterPanel.ChannelOfHexColor | frontend/src/components/FilterPanel.js:140-142 | each parsed channel of a well-formed colour is its byte moved and clamped |
| FilterPanel.ColorOfChannels | frontend/src/components/FilterPanel.js:143 | a colour written from three bytes is well-formed, lower-case, and reads back as those bytes |
| FilterPanel.AdjustedChannelText | frontend/src/components/FilterPanel.js:140-143 | each written channel is the two digits of the adjusted byte |
| FilterPanel.AdjustedOfColorOf | frontend/src/components/FilterPanel.js:138-144 | the colour written from the adjusted bytes has exactly those channels |
| FilterPanel.DigitCharOfValue | frontend/src/components/FilterPanel.js:143 | a hex digit written back from its value is the digit in lower case |
| FilterPanel.ByteDigitsOfPair | frontend/src/components/FilterPanel.js:140-143 | rewriting a parsed byte gives its digits in lower case |
| FilterPanel.ColorOfChannelValues | frontend/src/components/FilterPanel.js:138-144 | rewriting the channels of a well-formed colour lower-cases it |
| FilterPanel.AdjustByZero | frontend/src/components/FilterPanel.js:138-144 | adjusting by 0 returns the colour in lower case, so a lower-case colour is unchanged |
| FilterPanel.PanelColorsMatchCards | frontend/src/components/FilterPanel.js:4-23 | every type button has the colour of the same type's card badge |
| FilterPanel.PanelOffersCardTypes | frontend/src/components/FilterPanel.js:4-23 | the panel offers exactly the types the cards have colours for |
| FilterPanel.PanelNamesInOrder | frontend/src/components/FilterPanel.js:4-23 | the 18 selectable types, in the panel's order |
| FilterPanel.PanelNames | frontend/src/components/FilterPanel.js:4-23 | the names of the selectable types, in order |
| FilterPanel.TypeIcon | frontend/src/components/FilterPanel.js:147-169 | a known type gets its table icon, any other the `❓` fallback |
| FilterPanel.PanelTypesHaveIcons | frontend/src/components/FilterPanel.js:147-169 | every selectable type has its own icon, never the fallback |
| Card.IdLabel | frontend/src/components/PokemonCard.js:48 | the label is `#` and the decimal id, left-padded with `0` to three characters |
| Card.IdLabelOfLongId | frontend/src/components/PokemonCard.js:48 | an id of three digits or more is shown unpadded |
| Card.IdLabelReadsBack | frontend/src/components/PokemonCard.js:48 | the padded digits parse back to the id |
| Card.IdLabelInjective | frontend/src/components/PokemonCard.js:48 | distinct non-negative ids get distinct labels |
| Card.Capitalize | frontend/src/components/PokemonCard.js:76 | the first character is upper-cased, the rest and the length are kept |
| Card.CapitalizeKeepsLetters | frontend/src/components/PokemonCard.js:76 | capitalising changes nothing but the case of the first letter |
| Card.CapitalizeIdempotent | frontend/src/components/PokemonCard.js:76 | capitalising twice is capitalising once |
| Card.TypeColor | frontend/src/components/PokemonCard.js:11-32 | the table colour for the 18 known types, `#68A090` for any other |
| Card.TypeColorIsHex | frontend/src/components/PokemonCard.js:11-32 | every badge colour is `#` and six hex digits |
| Card.FavoriteClick | frontend/src/components/PokemonCard.js:34-39 | a click hands over exactly the card's id, and only when a handler is supplied |
| Card.FavoriteButtonOf | frontend/src/components/PokemonCard.js:49-58 | the button appears only with a handler, with a filled star and remove label for a favourite, an empty star and add label otherwise |
| Card.FavoriteButtonDistinguishes | frontend/src/components/PokemonCard.js:49-58 | the glyph alone, and the label alone, determine whether the card is a favourite |
| FavoritesHook.IsFavorite | frontend/src/hooks/useFavorites.js:46-48 | membership in the favourites list |
| FavoritesHook.Count | frontend/src/hooks/useFavorites.js:186 | the length of the favourites list |
| FavoritesHook.AddUpdate | frontend/src/hooks/useFavorites.js:55-59 | the updated list has no duplicate and holds exactly the previous ids and the new one |
| FavoritesHook.AddUpdateAppends | frontend/src/hooks/useFavorites.js:55-59 | on a duplicate-free list a new id is appended and a present id changes nothing |
| FavoritesHook.RemoveUpdate | frontend/src/hooks/useFavorites.js:85-89 | the id is gone and every other id occurs as often as before |
| FavoritesHook.RemoveUpdateIsFilter | frontend/src/hooks/useFavorites.js:85-89 | the removal keeps the other ids in their order |
| FavoritesHook.Add | frontend/src/hooks/useFavorites.js:50-78 | the list gets the add update, a request is sent exactly while the backend is believed reachable, the flag survives only a successful request, and the call resolves true |
| FavoritesHook.Remove | frontend/src/hooks/useFavorites.js:80-107 | the list gets the remove update, with the same request, flag and result rules |
| FavoritesHook.SyncDoesNotAffectList | frontend/src/hooks/useFavorites.js:61-97 | a failed sync leaves the local change in place and only clears the backend flag |
| FavoritesHook.Toggle | frontend/src/hooks/useFavorites.js:109-115 | the id's membership flips and no other id's does |
| FavoritesHook.ToggleTwice | frontend/src/hooks/useFavorites.js:109-115 | toggling a new id twice restores the list; toggling a present id twice moves it to the end |
| FavoritesHook.LookUp | frontend/src/hooks/useFavorites.js:136-156 | a lookup yields a record exactly when the request succeeded with a detail body |
| FavoritesHook.Lookups | frontend/src/hooks/useFavorites.js:160 | one lookup per favourite, in position |
| FavoritesHook.FavoritesList | frontend/src/hooks/useFavorites.js:125-168 | no favourites give an empty list; otherwise every favourite yields one record or is dropped as failed |
| FavoritesHook.FavoritesListMembership | frontend/src/hooks/useFavorites.js:136-168 | a record is listed exactly when some favourite's lookup produced it |
| FavoritesHook.FavoritesListConcat | frontend/src/hooks/useFavorites.js:160-168 | the list follows the order of the favourites |
| FavoritesHook.FavoritesListAllAnswered | frontend/src/hooks/useFavorites.js:160-168 | when every lookup succeeds, record i belongs to favourite i and nothing is dropped |
| LocalCache.ReadValue | frontend/src/hooks/useLocalCache.js:12-30 | nothing stored or unparseable text gives the initial value; an expired item gives the initial value and is removed; otherwise the stored data; other keys are untouched |
| LocalCache.Write | frontend/src/hooks/useLocalCache.js:32-45 | the value becomes the new one, and the item with expiry now + ttl is stored under the key alone |
| LocalCache.WriteThenRead | frontend/src/hooks/useLocalCache.js:14-41 | a value written at t is read back at any time up to t + ttl |
| LocalCache.WriteThenReadLate | frontend/src/hooks/useLocalCache.js:14-41 | after t + ttl the read gives the initial value and removes the item |
| LocalCache.NoExpiryNeverExpires | frontend/src/hooks/useLocalCache.js:20-25 | an item without an expiry is returned at every time |
| LocalCache.ReadAtExpiry | frontend/src/hooks/useLocalCache.js:20-25 | at the expiry instant the data is still returned |
| LocalCache.ReadTwice | frontend/src/hooks/useLocalCache.js:14-28 | a second read at the same time gives the same value and storage |
| LocalCache.WriteIsolated | frontend/src/hooks/useLocalCache.js:36-41 | a write under one key leaves every other key's read unchanged |
| Seqs.Filter | frontend/src/App.js:129-158 | a filter result is no longer than its input and holds only accepted input elements |
| Seqs.FilterMembership | frontend/src/App.js:129-158 | an element is kept exactly when it occurs and is accepted |
| Seqs.FilterMultiplicity | frontend/src/App.js:129-158 | an accepted element is kept as often as it occurs, a rejected one never |
| Seqs.FilterConcat | frontend/src/App.js:129-158 | filtering distributes over concatenation |
| Seqs.FilterFilter | frontend/src/App.js:129-158 | two filters in a row are one filter by the conjunction |
| Seqs.FilterExactly | frontend/src/App.js:129-158 | the elements of a filter are exactly the accepted elements of its input |
| Seqs.RemoveAll | frontend/src/hooks/useFavorites.js:86 | every occurrence of the element goes, every other element stays as often as it was |
| Seqs.RemoveAllSnocAbsent | frontend/src/components/FilterPanel.js:28 | removing an element just appended to a sequence without it gives the sequence back |
| Seqs.Dedup | frontend/src/hooks/useFavorites.js:56 | the de-duplication holds each element once and the same elements |
| Seqs.DedupSnoc | frontend/src/hooks/useFavorites.js:56 | de-duplicating after appending to a duplicate-free sequence appends exactly a new element |
| Seqs.Somes | frontend/src/hooks/useFavorites.js:164 | dropping the nulls loses exactly the null slots |
| Seqs.SomesMembership | frontend/src/hooks/useFavorites.js:164 | a value survives exactly when some slot held it |
| Seqs.SomesAllPresent | frontend/src/hooks/useFavorites.js:164 | with no null slot nothing is dropped and positions line up |
| Sorting.Insert | frontend/src/App.js:162-177 | inserting into a sorted sequence keeps it sorted and adds exactly the element |
| Sorting.InsertAbove | frontend/src/App.js:162-177 | a lower bound of the element and of the sequence bounds the insertion |
| Sorting.Sort | frontend/src/App.js:162-177 | the sort is a permutation ordered by the comparator |
| Sorting.LexLe | frontend/src/App.js:169-174 | a prefix comes first; otherwise the first characters are in order |
| Sorting.LexLeTotal | frontend/src/App.js:169-174 | code-point order compares any two names |
| Sorting.LexLeTransitive | frontend/src/App.js:169-174 | code-point order is transitive |
| Sorting.LexLeAntisymmetric | frontend/src/App.js:169-174 | two names that each come before the other are equal |
| Text.Lower | frontend/src/App.js:127-130 | lower-casing keeps the length and lower-cases each ASCII letter |
| Text.TrimLower | frontend/src/App.js:126-127 | lower-casing and then trimming the query gives the same text as trimming and then lower-casing |
| Text.TrimStart | frontend/src/App.js:126 | the result drops only leading white space and starts with none |
| Text.TrimEnd | frontend/src/App.js:126 | the result is a prefix of the input, drops only trailing white space and ends with none |
| Text.Trim | frontend/src/App.js:126 | the trimmed text is a block of the input with white space on neither edge, and everything dropped before and after it is white space |
| Text.NoBreakSpaceIsBlank | frontend/src/App.js:126 | a query of a single no-break space trims to nothing, so it filters nothing |
| Text.Includes | frontend/src/App.js:130-131 | the empty text and the text itself are included, and an included text is no longer than the whole |
| Text.Utf16Length | backend/server.js:141 | the JavaScript length lies between the number of characters and twice it, and equals it exactly when no character lies outside the Basic Multilingual Plane |
| Text.Utf16LengthAstral | backend/server.js:141 | a single character outside the Basic Multilingual Plane has length 2 |
| Text.ParseInt | frontend/src/App.js:147 | blank text, or text whose first non-blank character can start no number, is NaN; only a leading minus gives a negative number; unsigned decimal text without `0x` reads as the value of its leading digits |
| Text.DigitPrefix | frontend/src/App.js:147 | the longest run of digits at the start: all digits, followed by a non-digit or the end |
| Text.NatToString | frontend/src/components/FilterPanel.js:143 | the digits of a number in the radix, in lower case, with no leading zero except for 0 itself |
| Text.TrimEmpty | frontend/src/App.js:126 | a query trims to nothing exactly when it is all white space, JavaScript's white space and line terminators including U+00A0 and U+FEFF |
| Text.IntToString | frontend/src/App.js:131 | the decimal text of an integer: digits, with a minus sign exactly for a negative number |
| Text.ParseIntOfIntToString | frontend/src/App.js:147-154 | parseInt of a number's decimal text is the number |
| Text.NatToStringValue | frontend/src/components/FilterPanel.js:143 | the digits `toString(radix)` writes read back as the number |
| Text.PadStart | frontend/src/components/PokemonCard.js:48 | padding keeps a long text and left-fills a short one to the width |
| Text.DigitsValueLeadingZeros | frontend/src/components/PokemonCard.js:48 | leading zeros do not change the value of a digit string |

## Left out

- HTTP and the network: Express routing, CORS, `app.listen`, the health route, the 404 fallback route, and axios. The upstream API is the `Fetcher.Upstream` parameter.
- The React runtime: state scheduling, effects, rendering, CSS, `window.scrollTo`, loading and error flags, and the delayed favourites reload after a toggle (frontend/src/App.js:237-248).
- The initial loads: the first 151 entries in `App` (frontend/src/App.js:52-109), and the favourites read from `localStorage` with the backend health check in `useFavorites` (frontend/src/hooks/useFavorites.js:12-44). Also `clearFavorites`. These are I/O sequencing around the modelled functions.
- JSON encoding in `localStorage`. `LocalCache` stores what the text parses to. Text that parses to a non-object, or an object without `data`, is not distinguished from `Corrupt` or `Entry`. A `JSON.stringify` failure during a write is not modelled.
- The search bar, error and loading components, the debounce hook, and the client service module. The client service trims the query before its 2-character check, while the server checks the untrimmed query (backend/server.js:141). The model follows the server.
- Concurrency of `Promise.all`. The fan-out is modelled in two phases: every cache probe runs before the first upstream answer, then each answer is stored. With the upstream a function of the endpoint, completion order changes nothing. The code has no request coalescing, so duplicate misses in one batch are each requested.
- Fetcher.Finish, Fetcher.FinishAll: a whole request runs at one `now`, so each `cache.set` after an `await` is stamped with the time of the probe rather than the time the answer arrived. At TTLs of 3600 and 7200 seconds this moves an expiry by the upstream latency only.
- Fetcher.Fetch: the hit/miss counters of `node-cache` are modelled as the library documents them. The library itself is not part of this model.
- TtlCache.Get, TtlCache.GetAfterExpiry, TtlCache.SetThenGet: an entry is taken to be live while `now < insertedAt + ttl`, so it is gone at the instant `insertedAt + ttl`. `node-cache` keeps it until its clock has passed that instant, and treats a TTL of 0 as unlimited. The backend only stores with TTLs of 3600 and 7200 seconds.
- Server.ClearCache: `flushAll` is taken to reset the counters as well as the entries.
- TtlCache.HitRate, Server.CacheStats: the hit rate is an exact rational number, where the source divides IEEE doubles and so rounds it.
- TtlCache.StatsOf, Server.CacheStats: the periodic sweep of `node-cache` is not modelled. The backend keeps the default `checkperiod` of 600 seconds, so in the source expired entries are also deleted every ten minutes, and after a sweep `keys().length` counts fewer keys than the model, which drops an expired entry only when it is read.
- Server.Search: a search record has the four fields id, name, types and sprite. Search matching uses ASCII lower-casing.
- AppView.SortStep: `localeCompare` is modelled as code-point lexicographic order, and `Array.prototype.sort` as a stable insertion sort. Locale collation is not modelled.
- AppView.ActiveBound: the panel stores a bound as a number, so `parseInt` of it gives the number back. A bound typed into any other component is not modelled.
- Text.ParseInt: numbers are unbounded, so a digit string beyond 2^53 reads as its exact value where JavaScript rounds it.
- Card.Capitalize, Text.Lower: `toLowerCase` and `toUpperCase` act on ASCII letters only, so an upper-casing that changes the length (`"ß"` to `"SS"`) is not modelled.
- Card.TypeColor, FilterPanel.TypeIcon: lookups by inherited object keys such as `toString` are not modelled. Type names are plain strings.
- FavoritesHook.Add, FavoritesHook.Remove: the rollback branches (frontend/src/hooks/useFavorites.js:71-74, 100-103) run only when a state update throws, which the model's updates cannot. So the call always resolves true. The loading flag is not modelled.
- FavoritesRoutes.BodyUser: the body's `userId` is modelled as absent or a string. A JSON `null`, number, boolean, array or object there becomes a `Map` key of its own in the source, which no query-string user can reach. The model has no such keys.
- Catalog.ToPokemon, Catalog.ToSearchHit, Catalog.ToFavoriteHit: a detail body is taken to have readable `types`, `sprites` and `abilities`. Only `stats`, which the detail route alone reads, may be missing. So a body without abilities, which the search and favourites routes could still show, is not modelled.
- FavoritesRoutes.BodyPokemonId: JSON values are reduced to the cases the validation tells apart. Non-integer numbers are not modelled.
- Numbers are unbounded integers. Id and offset arithmetic near the limits of JavaScript numbers is not modelled.

## Findings

| source | as written | input that shows it | evidently intended | confidence | as-written member | corrected member |
|---|---|---|---|---|---|---|
| backend/server.js:41-129 | the fetch helper rethrows a plain `Error` without `response`, so the detail route's `error.response.status === 404` test never holds | a name the catalogue does not know, which upstream answers with 404 | 404 "Pokémon not found" for an unknown name, as the route's branch and the backend test expect | high, not executed | Server.DetailNotFoundIs500 | Server.DetailKeepingStatus |
| frontend/src/components/Pagination.js:52-84 | the shortcut tests look at the current page, not at the window, so the shortcut repeats a page the window already shows | current page 4 of 4 shows 1 1 2 3 4; page 5 of 5 shows 1 … 1 2 3 4 5; page 1 of 4 shows 1 2 3 4 4 | each page shown once, with `…` only over skipped pages | high, not executed | Pagination.StripAsWrittenRepeatsFirstPage | Pagination.StripIncreasing |
