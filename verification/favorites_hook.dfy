/** The client-side favourites of frontend/src/hooks/useFavorites.js: a list of ids kept
    in the browser, updated at once on every add or remove, and mirrored to the backend
    on a best-effort basis while the backend is believed to be reachable. */
module FavoritesHook {
  import opened Wrappers
  import opened Seqs
  import opened Catalog

  /** The hook's state: the id list (not necessarily free of duplicates, since it is read
      back from storage as it was written) and the `backendAvailable` flag. */
  datatype Hook = Hook(favorites: seq<int>, backendAvailable: bool)

  /** `isFavorite(id)`: `favorites.includes(id)`. */
  function IsFavorite(h: Hook, id: int): (r: bool)
    ensures r <==> exists i :: 0 <= i < |h.favorites| && h.favorites[i] == id
  {
    id in h.favorites
  }

  /** `favoritesCount`. */
  function Count(h: Hook): (r: nat)
    ensures r == |h.favorites|
  {
    |h.favorites|
  }

  // ---------------------------------------------------------------- list updates

  /** The add update `[...new Set([...prev, id])]`. */
  function AddUpdate(prev: seq<int>, id: int): (r: seq<int>)
    ensures NoDup(r)
    ensures id in r
    ensures forall x :: x in r <==> x in prev || x == id
  {
    Dedup(prev + [id])
  }

  /** On a list without duplicates the add update appends a new id and leaves the
      list alone when the id is already there: previous ids keep their order. */
  lemma AddUpdateAppends(prev: seq<int>, id: int)
    requires NoDup(prev)
    ensures AddUpdate(prev, id) == if id in prev then prev else prev + [id]
  {
    DedupSnoc(prev, id);
  }

  /** The remove update `prev.filter(x => x !== id)`. */
  function RemoveUpdate(prev: seq<int>, id: int): (r: seq<int>)
    ensures id !in r
    ensures forall x :: x != id ==> multiset(r)[x] == multiset(prev)[x]
  {
    RemoveAll(prev, id)
  }

  function Other(id: int): int -> bool {
    x => x != id
  }

  /** The remove update keeps the other ids in their order: it is the filter that drops `id`. */
  lemma {:induction false} RemoveUpdateIsFilter(prev: seq<int>, id: int)
    ensures RemoveUpdate(prev, id) == Filter(prev, Other(id))
  {
    if |prev| > 0 {
      RemoveUpdateIsFilter(prev[1..], id);
    }
  }

  // ---------------------------------------------------------------- actions

  /** The outcome of `addFavorite` / `removeFavorite`: the new state, the value the
      promise resolves to, and whether a request was sent to the backend. */
  datatype Done = Done(hook: Hook, resolved: bool, requested: bool)

  /** `addFavorite(id)`. The local list changes first; a request goes out only while the
      backend is believed reachable, and `syncOk` is whether that request succeeds.
      The failure of the request only clears `backendAvailable`. */
  function Add(h: Hook, id: int, syncOk: bool): (r: Done)
    ensures r.hook.favorites == AddUpdate(h.favorites, id)
    ensures r.requested <==> h.backendAvailable
    ensures r.hook.backendAvailable <==> h.backendAvailable && syncOk
    ensures r.resolved
  {
    Done(Hook(AddUpdate(h.favorites, id), h.backendAvailable && syncOk), true, h.backendAvailable)
  }

  /** `removeFavorite(id)`, with the same best-effort mirroring. */
  function Remove(h: Hook, id: int, syncOk: bool): (r: Done)
    ensures r.hook.favorites == RemoveUpdate(h.favorites, id)
    ensures r.requested <==> h.backendAvailable
    ensures r.hook.backendAvailable <==> h.backendAvailable && syncOk
    ensures r.resolved
  {
    Done(Hook(RemoveUpdate(h.favorites, id), h.backendAvailable && syncOk), true, h.backendAvailable)
  }

  /** A failed backend request never undoes the local change. */
  lemma SyncDoesNotAffectList(h: Hook, id: int)
    ensures Add(h, id, false).hook.favorites == Add(h, id, true).hook.favorites
    ensures Remove(h, id, false).hook.favorites == Remove(h, id, true).hook.favorites
    ensures !Add(h, id, false).hook.backendAvailable && !Remove(h, id, false).hook.backendAvailable
  {
  }

  /** `toggleFavorite(id)`: remove when present, add otherwise. */
  function Toggle(h: Hook, id: int, syncOk: bool): (r: Done)
    ensures IsFavorite(r.hook, id) <==> !IsFavorite(h, id)
    ensures forall x :: x != id ==> (IsFavorite(r.hook, x) <==> IsFavorite(h, x))
  {
    if IsFavorite(h, id) then Remove(h, id, syncOk) else Add(h, id, syncOk)
  }

  /** Toggling a new id twice gives the list back; toggling a present id twice moves it
      to the end. */
  lemma ToggleTwice(h: Hook, id: int, s1: bool, s2: bool)
    requires NoDup(h.favorites)
    ensures var twice := Toggle(Toggle(h, id, s1).hook, id, s2).hook.favorites;
      twice == if id in h.favorites then RemoveAll(h.favorites, id) + [id] else h.favorites
  {
    if id in h.favorites {
      RemoveAllNoDup(h.favorites, id);
      AddUpdateAppends(RemoveAll(h.favorites, id), id);
    } else {
      AddUpdateAppends(h.favorites, id);
      RemoveAllSnocAbsent(h.favorites, id);
    }
  }

  // ---------------------------------------------------------------- the favourites list

  /** One lookup of `getFavoritesList`: `None` when the request fails, and also when the
      body is not a detail record (reading its fields throws, which the handler turns
      into `null`). */
  function LookUp(answer: Option<Value>): (r: Option<Pokemon>)
    ensures r.Some? <==> answer.Some? && answer.value.DetailBody?
  {
    if answer.Some? then ToPokemon(answer.value) else None
  }

  /** The lookups of all ids, position by position: the `Promise.all` result. */
  function Lookups(favorites: seq<int>, answers: int -> Option<Value>): (r: seq<Option<Pokemon>>)
    ensures |r| == |favorites|
    ensures forall i :: 0 <= i < |r| ==> r[i] == LookUp(answers(favorites[i]))
  {
    seq(|favorites|, i requires 0 <= i < |favorites| => LookUp(answers(favorites[i])))
  }

  /** `getFavoritesList()`: `[]` for no favourites, otherwise the successful lookups with
      the `null`s filtered out. `answers` gives each id's upstream answer. */
  function FavoritesList(favorites: seq<int>, answers: int -> Option<Value>): (r: seq<Pokemon>)
    ensures |favorites| == 0 ==> r == []
    ensures |r| <= |favorites|
    ensures |r| + NoneCount(Lookups(favorites, answers)) == |favorites|
  {
    if |favorites| == 0 then [] else Somes(Lookups(favorites, answers))
  }

  /** A record is listed exactly when some favourite's lookup produced it. */
  lemma FavoritesListMembership(favorites: seq<int>, answers: int -> Option<Value>, p: Pokemon)
    ensures p in FavoritesList(favorites, answers)
      <==> exists i :: 0 <= i < |favorites| && LookUp(answers(favorites[i])) == Some(p)
  {
    var l := Lookups(favorites, answers);
    SomesMembership(l, p);
    if Some(p) in l {
      var i :| 0 <= i < |l| && l[i] == Some(p);
      assert LookUp(answers(favorites[i])) == Some(p);
    }
  }

  /** The list follows the order of the favourites: the records of a prefix come before
      those of the rest. */
  lemma FavoritesListConcat(a: seq<int>, b: seq<int>, answers: int -> Option<Value>)
    ensures FavoritesList(a + b, answers) == FavoritesList(a, answers) + FavoritesList(b, answers)
  {
    assert Lookups(a + b, answers) == Lookups(a, answers) + Lookups(b, answers);
    SomesConcat(Lookups(a, answers), Lookups(b, answers));
  }

  /** When every lookup succeeds nothing is dropped: one record per favourite, in order,
      each carrying the id of the detail body fetched for it. */
  lemma FavoritesListAllAnswered(favorites: seq<int>, answers: int -> Option<Value>)
    requires forall i :: 0 <= i < |favorites| ==> LookUp(answers(favorites[i])).Some?
    ensures |FavoritesList(favorites, answers)| == |favorites|
    ensures forall i :: 0 <= i < |favorites| ==>
      FavoritesList(favorites, answers)[i] == LookUp(answers(favorites[i])).value
  {
    SomesAllPresent(Lookups(favorites, answers));
  }
}
