/** The list shaping of frontend/src/App.js: the search, type and id-range filters and the
    sort of the `filteredPokemon` pipeline, the page slice, the active-filter counter, and
    the handlers that reset the page. */
module AppView {
  import opened Wrappers
  import opened Seqs
  import opened Text
  import opened Sorting
  import opened Catalog
  import opened FilterPanel

  datatype ViewMode = All | Favorites

  const ItemsPerPage := 20

  // ---------------------------------------------------------------- filters

  /** `pokemon.name.toLowerCase().includes(q) || pokemon.id.toString().includes(q)`. */
  predicate MatchesQuery(p: Pokemon, q: string): (r: bool)
    ensures |q| == 0 ==> r
    ensures q == Lower(p.name) || q == IntToString(p.id) ==> r
    ensures r ==> |q| <= |p.name| || |q| <= |IntToString(p.id)|
  {
    Includes(Lower(p.name), q) || Includes(IntToString(p.id), q)
  }

  /** The search step: a blank query (white space only) filters nothing; otherwise the query
      is lower-cased and trimmed. */
  function SearchStep(list: seq<Pokemon>, query: string): (r: seq<Pokemon>)
    ensures Trim(query) == "" ==> r == list
    ensures |r| <= |list|
    ensures forall x :: x in r <==> x in list && (Trim(query) == "" || MatchesQuery(x, Lower(Trim(query))))
  {
    if Trim(query) == "" then list
    else
      TrimLower(query);
      FilterExactly(list, MatchingQuery(Trim(Lower(query))));
      Filter(list, MatchingQuery(Trim(Lower(query))))
  }

  function MatchingQuery(q: string): Pokemon -> bool {
    (p: Pokemon) => MatchesQuery(p, q)
  }

  /** `types.some(type => pokemon.types.includes(type))`. */
  predicate SharesType(p: Pokemon, types: seq<string>) {
    exists i :: 0 <= i < |types| && types[i] in p.types
  }

  function SharingType(types: seq<string>): Pokemon -> bool {
    (p: Pokemon) => SharesType(p, types)
  }

  /** The type step: an empty selection filters nothing. */
  function TypeStep(list: seq<Pokemon>, types: seq<string>): (r: seq<Pokemon>)
    ensures |types| == 0 ==> r == list
    ensures |r| <= |list|
    ensures forall x :: x in r <==> x in list && (|types| == 0 || SharesType(x, types))
  {
    if |types| == 0 then list
    else
      FilterExactly(list, SharingType(types));
      Filter(list, SharingType(types))
  }

  /** `if (filters.minId) { const minId = parseInt(filters.minId); ... }`: a bound applies
      when it is truthy, i.e. a number other than 0, and `parseInt` of a number's decimal
      text is the number. */
  function ActiveBound(b: IdBound): (r: Option<int>)
    ensures r == if b.Bound? && b.n != 0 then Some(b.n) else None
  {
    if b.Bound? && b.n != 0 then
      ParseIntOfIntToString(b.n);
      ParseInt(IntToString(b.n), None)
    else None
  }

  function AtLeast(m: int): Pokemon -> bool {
    (p: Pokemon) => p.id >= m
  }

  function AtMost(m: int): Pokemon -> bool {
    (p: Pokemon) => p.id <= m
  }

  /** The `minId` step: with an active bound, the items whose id reaches it. */
  function MinStep(list: seq<Pokemon>, b: IdBound): (r: seq<Pokemon>)
    ensures ActiveBound(b).None? ==> r == list
    ensures |r| <= |list|
    ensures forall x :: x in r <==> x in list && (ActiveBound(b).None? || x.id >= ActiveBound(b).value)
  {
    var m := ActiveBound(b);
    if m.None? then list
    else
      FilterExactly(list, AtLeast(m.value));
      Filter(list, AtLeast(m.value))
  }

  /** The `maxId` step: with an active bound, the items whose id does not exceed it. */
  function MaxStep(list: seq<Pokemon>, b: IdBound): (r: seq<Pokemon>)
    ensures ActiveBound(b).None? ==> r == list
    ensures |r| <= |list|
    ensures forall x :: x in r <==> x in list && (ActiveBound(b).None? || x.id <= ActiveBound(b).value)
  {
    var m := ActiveBound(b);
    if m.None? then list
    else
      FilterExactly(list, AtMost(m.value));
      Filter(list, AtMost(m.value))
  }

  /** The four filtering steps in the order the source applies them, before sorting. */
  function Selected(list: seq<Pokemon>, query: string, f: Filters): (r: seq<Pokemon>)
    ensures |r| <= |list|
    ensures forall x :: x in r <==> x in list && Passes(x, query, f)
  {
    MaxStep(MinStep(TypeStep(SearchStep(list, query), f.types), f.minId), f.maxId)
  }

  /** The reference condition: what an item must satisfy to be shown. The query is
      trimmed before it is lower-cased, which `TrimLower` shows is the same text. */
  predicate Passes(p: Pokemon, query: string, f: Filters): (r: bool)
    // with no filter active, every item passes
    ensures Trim(query) == "" && |f.types| == 0 && ActiveBound(f.minId).None? && ActiveBound(f.maxId).None? ==> r
  {
    && (Trim(query) == "" || MatchesQuery(p, Lower(Trim(query))))
    && (|f.types| == 0 || SharesType(p, f.types))
    && (ActiveBound(f.minId).None? || p.id >= ActiveBound(f.minId).value)
    && (ActiveBound(f.maxId).None? || p.id <= ActiveBound(f.maxId).value)
  }

  /** The reference condition is the source's test, which lower-cases the query before
      trimming it. */
  lemma PassesSourceForm(p: Pokemon, query: string, f: Filters)
    ensures Passes(p, query, f) <==>
      && (Trim(query) == "" || MatchesQuery(p, Trim(Lower(query))))
      && (|f.types| == 0 || SharesType(p, f.types))
      && (ActiveBound(f.minId).None? || p.id >= ActiveBound(f.minId).value)
      && (ActiveBound(f.maxId).None? || p.id <= ActiveBound(f.maxId).value)
  {
    TrimLower(query);
  }

  function Passing(query: string, f: Filters): Pokemon -> bool {
    (p: Pokemon) => Passes(p, query, f)
  }

  /** `p` when the step applies, and the condition that always holds when it does not. */
  function WhenApplied(applied: bool, p: Pokemon -> bool): Pokemon -> bool {
    (x: Pokemon) => !applied || p(x)
  }

  /** A step that filters by `p` or leaves the list alone is a filter by `p`, or by `true`. */
  lemma StepIsFilter(list: seq<Pokemon>, applied: bool, p: Pokemon -> bool)
    ensures (if applied then Filter(list, p) else list) == Filter(list, WhenApplied(applied, p))
  {
    if applied {
      FilterSamePredicate(list, p, WhenApplied(applied, p));
    } else {
      FilterKeepsAll(list, WhenApplied(applied, p));
    }
  }

  /** A step applied after a filter by `c` is a filter by `c2`, the conjunction of the two. */
  lemma StepAfterFilter(list: seq<Pokemon>, c: Pokemon -> bool, applied: bool, p: Pokemon -> bool,
                        c2: Pokemon -> bool)
    requires forall i :: 0 <= i < |list| ==> c2(list[i]) == (c(list[i]) && (!applied || p(list[i])))
    ensures (if applied then Filter(Filter(list, c), p) else Filter(list, c)) == Filter(list, c2)
  {
    StepIsFilter(Filter(list, c), applied, p);
    FilterFilter(list, c, WhenApplied(applied, p), c2);
  }

  /** The conditions of the first one, two and three steps. */
  function UpToSearch(query: string): Pokemon -> bool {
    (x: Pokemon) => Trim(query) == "" || MatchesQuery(x, Lower(Trim(query)))
  }

  function UpToTypes(query: string, types: seq<string>): Pokemon -> bool {
    (x: Pokemon) => UpToSearch(query)(x) && (|types| == 0 || SharesType(x, types))
  }

  function UpToMin(query: string, f: Filters): Pokemon -> bool {
    (x: Pokemon) => UpToTypes(query, f.types)(x)
      && (ActiveBound(f.minId).None? || x.id >= ActiveBound(f.minId).value)
  }

  function Anything(): Pokemon -> bool {
    (x: Pokemon) => true
  }

  /** The staged pipeline keeps exactly the items of the reference condition, in order. */
  lemma SelectedIsFilter(list: seq<Pokemon>, query: string, f: Filters)
    ensures Selected(list, query, f) == Filter(list, Passing(query, f))
  {
    SearchStage(list, query);
    TypeStage(list, query, f.types);
    MinStage(list, query, f);
    MaxStage(list, query, f);
  }

  lemma SearchStage(list: seq<Pokemon>, query: string)
    ensures SearchStep(list, query) == Filter(list, UpToSearch(query))
  {
    TrimLower(query);
    FilterKeepsAll(list, Anything());
    StepAfterFilter(list, Anything(), Trim(query) != "", MatchingQuery(Lower(Trim(query))), UpToSearch(query));
  }

  lemma TypeStage(list: seq<Pokemon>, query: string, types: seq<string>)
    ensures TypeStep(Filter(list, UpToSearch(query)), types) == Filter(list, UpToTypes(query, types))
  {
    StepAfterFilter(list, UpToSearch(query), |types| != 0, SharingType(types), UpToTypes(query, types));
  }

  lemma MinStage(list: seq<Pokemon>, query: string, f: Filters)
    ensures MinStep(Filter(list, UpToTypes(query, f.types)), f.minId) == Filter(list, UpToMin(query, f))
  {
    var mn := ActiveBound(f.minId);
    StepAfterFilter(list, UpToTypes(query, f.types), mn.Some?, AtLeast(if mn.Some? then mn.value else 0),
                    UpToMin(query, f));
  }

  lemma MaxStage(list: seq<Pokemon>, query: string, f: Filters)
    ensures MaxStep(Filter(list, UpToMin(query, f)), f.maxId) == Filter(list, Passing(query, f))
  {
    var mx := ActiveBound(f.maxId);
    var atMost := AtMost(if mx.Some? then mx.value else 0);
    forall i | 0 <= i < |list|
      ensures Passing(query, f)(list[i]) == (UpToMin(query, f)(list[i]) && (!mx.Some? || atMost(list[i])))
    {
      var x := list[i];
      assert Passing(query, f)(x) == Passes(x, query, f);
      assert UpToMin(query, f)(x) == (UpToTypes(query, f.types)(x) && (ActiveBound(f.minId).None? || x.id >= ActiveBound(f.minId).value));
      assert UpToTypes(query, f.types)(x) == (UpToSearch(query)(x) && (|f.types| == 0 || SharesType(x, f.types)));
      assert atMost(x) == (x.id <= if mx.Some? then mx.value else 0);
    }
    StepAfterFilter(list, UpToMin(query, f), mx.Some?, atMost, Passing(query, f));
  }

  // ---------------------------------------------------------------- sorting

  /** The comparators of the four sort orders, as "`cmp(a, b) <= 0`"; `localeCompare` is
      taken as code-point order. */
  predicate IdAsc(a: Pokemon, b: Pokemon) { a.id - b.id <= 0 }
  predicate IdDesc(a: Pokemon, b: Pokemon) { b.id - a.id <= 0 }
  predicate NameAsc(a: Pokemon, b: Pokemon) { LexLe(a.name, b.name) }
  predicate NameDesc(a: Pokemon, b: Pokemon) { LexLe(b.name, a.name) }

  lemma IdOrdersTotal()
    ensures TotalPreorder(IdAsc) && TotalPreorder(IdDesc)
  {
  }

  lemma NameOrdersTotal()
    ensures TotalPreorder(NameAsc) && TotalPreorder(NameDesc)
  {
    forall a: Pokemon, b: Pokemon ensures NameAsc(a, b) || NameAsc(b, a) {
      LexLeTotal(a.name, b.name);
    }
    forall a: Pokemon, b: Pokemon ensures NameDesc(a, b) || NameDesc(b, a) {
      LexLeTotal(a.name, b.name);
    }
    forall a: Pokemon, b: Pokemon, c: Pokemon | NameAsc(a, b) && NameAsc(b, c)
      ensures NameAsc(a, c)
    {
      LexLeTransitive(a.name, b.name, c.name);
    }
    forall a: Pokemon, b: Pokemon, c: Pokemon | NameDesc(a, b) && NameDesc(b, c)
      ensures NameDesc(a, c)
    {
      LexLeTransitive(c.name, b.name, a.name);
    }
  }

  predicate KnownOrder(sortBy: string) {
    sortBy in {"id-asc", "id-desc", "name-asc", "name-desc"}
  }

  /** The `switch (filters.sortBy)`: an unknown order leaves the list as it is. */
  function SortStep(list: seq<Pokemon>, sortBy: string): (r: seq<Pokemon>)
    ensures multiset(r) == multiset(list)
    ensures sortBy == "id-asc" ==> Sorted(r, IdAsc)
    ensures sortBy == "id-desc" ==> Sorted(r, IdDesc)
    ensures sortBy == "name-asc" ==> Sorted(r, NameAsc)
    ensures sortBy == "name-desc" ==> Sorted(r, NameDesc)
    ensures !KnownOrder(sortBy) ==> r == list
  {
    IdOrdersTotal();
    NameOrdersTotal();
    if sortBy == "id-asc" then Sort(list, IdAsc)
    else if sortBy == "id-desc" then Sort(list, IdDesc)
    else if sortBy == "name-asc" then Sort(list, NameAsc)
    else if sortBy == "name-desc" then Sort(list, NameDesc)
    else list
  }

  /** `filteredPokemon`: outside the `all` view the loaded list is shown as it is; in it,
      exactly the items that pass every filter, each as often as it was loaded, in the
      chosen order (or in loaded order for an unknown one). */
  function FilterPokemon(list: seq<Pokemon>, mode: ViewMode, query: string, f: Filters)
    : (r: seq<Pokemon>)
    ensures mode == Favorites ==> r == list
    ensures mode == All ==> multiset(r) == multiset(Filter(list, Passing(query, f)))
    ensures mode == All && !KnownOrder(f.sortBy) ==> r == Filter(list, Passing(query, f))
    ensures mode == All && f.sortBy == "id-asc" ==> Sorted(r, IdAsc)
    ensures mode == All && f.sortBy == "id-desc" ==> Sorted(r, IdDesc)
    ensures mode == All && f.sortBy == "name-asc" ==> Sorted(r, NameAsc)
    ensures mode == All && f.sortBy == "name-desc" ==> Sorted(r, NameDesc)
  {
    if mode != All then list
    else
      SelectedIsFilter(list, query, f);
      SortStep(Selected(list, query, f), f.sortBy)
  }

  /** An item is shown exactly when it was loaded and passes every filter; nothing is
      added and nothing is shown more often than it was loaded. */
  lemma FilterPokemonMembership(list: seq<Pokemon>, query: string, f: Filters, x: Pokemon)
    ensures x in FilterPokemon(list, All, query, f) <==> x in list && Passes(x, query, f)
    ensures multiset(FilterPokemon(list, All, query, f))[x]
      == if Passes(x, query, f) then multiset(list)[x] else 0
  {
    var r := FilterPokemon(list, All, query, f);
    FilterMultiplicity(list, Passing(query, f), x);
    assert x in r <==> multiset(r)[x] > 0;
    assert x in list <==> multiset(list)[x] > 0;
  }

  // ---------------------------------------------------------------- pages

  /** `Array.prototype.slice(start, end)`: negative positions count from the end, and
      positions are clamped to the array. */
  function JsSlice<T>(s: seq<T>, start: int, end: int): (r: seq<T>)
    ensures |r| <= |s|
    ensures 0 <= start <= end ==>
      r == s[(if start < |s| then start else |s|)..(if end < |s| then end else |s|)]
  {
    var from := if start < 0 then (if |s| + start < 0 then 0 else |s| + start)
                else if start < |s| then start else |s|;
    var to := if end < 0 then (if |s| + end < 0 then 0 else |s| + end)
              else if end < |s| then end else |s|;
    if from < to then s[from..to] else []
  }

  /** `paginatedPokemon`: the items at positions `[(page-1)*20, page*20)`. */
  function Paginate<T>(list: seq<T>, page: int): (r: seq<T>)
    ensures |r| <= ItemsPerPage
    ensures page >= 1 ==> forall i :: 0 <= i < |r| ==>
      (page - 1) * ItemsPerPage + i < |list| && r[i] == list[(page - 1) * ItemsPerPage + i]
    ensures page >= 1 ==> |r| == var rest := |list| - (page - 1) * ItemsPerPage;
      if rest <= 0 then 0 else if rest < ItemsPerPage then rest else ItemsPerPage
  {
    var start := (page - 1) * ItemsPerPage;
    JsSlice(list, start, start + ItemsPerPage)
  }

  /** `Math.ceil(n / 20)`. */
  function TotalPages(n: nat): (r: nat)
    ensures (r - 1) * ItemsPerPage < n <= r * ItemsPerPage || (n == 0 && r == 0)
  {
    (n + ItemsPerPage - 1) / ItemsPerPage
  }

  /** Page `p` onwards, up to the last page, in order. */
  function PagesFrom<T>(list: seq<T>, page: nat): seq<T>
    requires page >= 1
    decreases TotalPages(|list|) + 1 - page
  {
    if page > TotalPages(|list|) then [] else Paginate(list, page) + PagesFrom(list, page + 1)
  }

  /** The pages, read one after the other, are the whole list: every item is on exactly one page. */
  lemma {:induction false} PagesCoverList<T>(list: seq<T>, page: nat)
    requires 1 <= page
    ensures (page - 1) * ItemsPerPage <= |list| ==>
      PagesFrom(list, page) == list[(page - 1) * ItemsPerPage..]
    decreases TotalPages(|list|) + 1 - page
  {
    if (page - 1) * ItemsPerPage <= |list| {
      var start := (page - 1) * ItemsPerPage;
      if page > TotalPages(|list|) {
        assert start == |list|;
      } else {
        var p := Paginate(list, page);
        if page * ItemsPerPage <= |list| {
          PagesCoverList(list, page + 1);
          assert p == list[start..start + ItemsPerPage];
          assert list[start..] == p + list[start + ItemsPerPage..];
        } else {
          assert p == list[start..];
          assert TotalPages(|list|) == page;
        }
      }
    }
  }

  /** The item at position `i` is on page `i / 20 + 1`, at position `i % 20`. */
  lemma PageOfIndex<T>(list: seq<T>, i: nat)
    requires i < |list|
    ensures var page := i / ItemsPerPage + 1;
      1 <= page <= TotalPages(|list|)
      && i % ItemsPerPage < |Paginate(list, page)|
      && Paginate(list, page)[i % ItemsPerPage] == list[i]
  {
  }

  // ---------------------------------------------------------------- counter and handlers

  predicate Truthy(b: IdBound) {
    b.Bound? && b.n != 0
  }

  /** `activeFilterCount`: one each for a type selection, an id range and a search. */
  function ActiveFilterCount(f: Filters, query: string): (r: nat)
    ensures r <= 3
    ensures r == 0 <==> |f.types| == 0 && !Truthy(f.minId) && !Truthy(f.maxId) && Trim(query) == ""
  {
    (if |f.types| > 0 then 1 else 0)
    + (if Truthy(f.minId) || Truthy(f.maxId) then 1 else 0)
    + (if Trim(query) != "" then 1 else 0)
  }

  /** With no active filter nothing is filtered out: the view is the loaded list, reordered. */
  lemma NoActiveFilterKeepsAll(list: seq<Pokemon>, query: string, f: Filters)
    requires ActiveFilterCount(f, query) == 0
    ensures multiset(FilterPokemon(list, All, query, f)) == multiset(list)
  {
    FilterKeepsAll(list, Passing(query, f));
  }

  /** The state `App` keeps for the list view. */
  datatype View = View(list: seq<Pokemon>, query: string, page: int, filters: Filters, mode: ViewMode)

  function HandleSearch(v: View, query: string): (r: View)
    ensures r == v.(query := query, page := 1)
  {
    v.(query := query, page := 1)
  }

  function HandleFilterChange(v: View, f: Filters): (r: View)
    ensures r == v.(filters := f, page := 1)
  {
    v.(filters := f, page := 1)
  }

  function HandlePageChange(v: View, page: int): (r: View)
    ensures r == v.(page := page)
  {
    v.(page := page)
  }

  /** `handleViewModeChange(mode)`: the list is emptied until it is loaded again, and the
      filters are cleared only on the way to the favourites. */
  function HandleViewModeChange(v: View, mode: ViewMode): (r: View)
    ensures r.mode == mode && r.query == "" && r.page == 1 && r.list == []
    ensures r.filters == if mode == Favorites then DefaultFilters else v.filters
  {
    View([], "", 1, if mode == Favorites then DefaultFilters else v.filters, mode)
  }

  function ClearAllFilters(v: View): (r: View)
    ensures r == v.(query := "", filters := DefaultFilters, page := 1)
  {
    v.(query := "", filters := DefaultFilters, page := 1)
  }

  /** Every change of what is shown sends the user back to the first page, which always
      holds the first items of the new view. */
  lemma ChangesResetPage(v: View, query: string, f: Filters, mode: ViewMode)
    ensures HandleSearch(v, query).page == 1
    ensures HandleFilterChange(v, f).page == 1
    ensures HandleViewModeChange(v, mode).page == 1
    ensures ClearAllFilters(v).page == 1
    ensures var w := HandleSearch(v, query);
      var shown := FilterPokemon(w.list, w.mode, w.query, w.filters);
      Paginate(shown, w.page) == shown[..if |shown| < ItemsPerPage then |shown| else ItemsPerPage]
  {
  }

  /** After clearing, no filter is active and the whole loaded list is shown by ascending id. */
  lemma ClearShowsAllById(v: View)
    ensures var w := ClearAllFilters(v);
      && ActiveFilterCount(w.filters, w.query) == 0
      && (w.mode == All ==>
            var shown := FilterPokemon(w.list, w.mode, w.query, w.filters);
            multiset(shown) == multiset(w.list) && Sorted(shown, IdAsc))
  {
    var w := ClearAllFilters(v);
    assert Trim("") == "";
    if w.mode == All {
      NoActiveFilterKeepsAll(w.list, w.query, w.filters);
    }
  }
}
