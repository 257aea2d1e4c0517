/** `FavoritesManager` (backend/favorites.js): an in-memory map from user id to the
    set of that user's favourite ids. A JavaScript `Set` iterates in insertion order,
    so each user's set is a duplicate-free sequence in order of insertion. */
module FavoritesStore {
  import opened Seqs

  datatype Store = Store(users: map<string, seq<int>>)

  /** Every user's favourites are a set: no id twice. */
  ghost predicate Valid(st: Store) {
    forall u :: u in st.users ==> NoDup(st.users[u])
  }

  function Empty(): (st: Store)
    ensures Valid(st) && st.users == map[]
  {
    Store(map[])
  }

  /** The result object of `addFavorite` / `removeFavorite`. */
  datatype Outcome =
    | Changed(success: bool, pokemonId: int, totalFavorites: nat)
    | NoFavorites(message: string)

  datatype Update = Update(store: Store, outcome: Outcome)

  /** `getFavorites(userId)`: `Array.from` of the user's set, or `[]` for an unknown user. */
  function GetFavorites(st: Store, user: string): (r: seq<int>)
    ensures user !in st.users ==> r == []
    ensures user in st.users ==> r == st.users[user]
  {
    if user in st.users then st.users[user] else []
  }

  /** `isFavorite(userId, pokemonId)`: `false` for an unknown user. */
  function IsFavorite(st: Store, user: string, id: int): (r: bool)
    ensures r <==> id in GetFavorites(st, user)
  {
    user in st.users && id in st.users[user]
  }

  /** `addFavorite(userId, pokemonId)`: creates the user's set on first use and adds the id. */
  function AddFavorite(st: Store, user: string, id: int): (r: Update)
    requires Valid(st)
    ensures Valid(r.store)
    ensures IsFavorite(r.store, user, id)
    ensures r.outcome == Changed(true, id, |r.store.users[user]|)
    // the id is added and nothing else changes in the user's set
    ensures forall x :: x != id ==> (IsFavorite(r.store, user, x) <==> IsFavorite(st, user, x))
    ensures user in st.users && id !in st.users[user] ==> r.store.users[user] == st.users[user] + [id]
    // re-adding a present id changes nothing
    ensures IsFavorite(st, user, id) ==> r.store == st
    // other users are untouched
    ensures forall u :: u != user ==> (u in r.store.users <==> u in st.users)
    ensures forall u :: u != user && u in st.users ==> r.store.users[u] == st.users[u]
  {
    var before := GetFavorites(st, user);
    var after := if id in before then before else before + [id];
    assert NoDup(after);
    var store := if user in st.users && id in before then st else Store(st.users[user := after]);
    Update(store, Changed(true, id, |after|))
  }

  /** `removeFavorite(userId, pokemonId)`: fails for an unknown user, otherwise deletes the id
      and reports whether it was there. The user's (possibly empty) set stays. */
  function RemoveFavorite(st: Store, user: string, id: int): (r: Update)
    requires Valid(st)
    ensures Valid(r.store)
    ensures user !in st.users ==> r.store == st && r.outcome == NoFavorites("No favorites found")
    ensures user in st.users ==>
      && r.outcome.Changed?
      && (r.outcome.success <==> id in st.users[user])
      && r.outcome.pokemonId == id
      && user in r.store.users
      && r.outcome.totalFavorites == |r.store.users[user]|
    ensures !IsFavorite(r.store, user, id)
    ensures forall x :: x != id ==> (IsFavorite(r.store, user, x) <==> IsFavorite(st, user, x))
    ensures forall u :: u != user ==> (u in r.store.users <==> u in st.users)
    ensures forall u :: u != user && u in st.users ==> r.store.users[u] == st.users[u]
  {
    if user !in st.users then Update(st, NoFavorites("No favorites found"))
    else
      var before := st.users[user];
      var after := RemoveAll(before, id);
      RemoveAllNoDup(before, id);
      Update(Store(st.users[user := after]), Changed(id in before, id, |after|))
  }

  /** `toggleFavorite(userId, pokemonId)`: remove when present, add otherwise. */
  function ToggleFavorite(st: Store, user: string, id: int): (r: Update)
    requires Valid(st)
    ensures Valid(r.store)
    ensures IsFavorite(r.store, user, id) <==> !IsFavorite(st, user, id)
    ensures forall x :: x != id ==> (IsFavorite(r.store, user, x) <==> IsFavorite(st, user, x))
    ensures forall u :: u != user ==> (u in r.store.users <==> u in st.users)
    ensures forall u :: u != user && u in st.users ==> r.store.users[u] == st.users[u]
    ensures r.outcome.Changed? && r.outcome.success
  {
    if IsFavorite(st, user, id) then RemoveFavorite(st, user, id) else AddFavorite(st, user, id)
  }

  /** Removing a present id undoes adding it: the store is what it was. */
  lemma AddThenRemove(st: Store, user: string, id: int)
    requires Valid(st) && user in st.users && !IsFavorite(st, user, id)
    ensures RemoveFavorite(AddFavorite(st, user, id).store, user, id).store == st
  {
    var before := st.users[user];
    var added := AddFavorite(st, user, id).store;
    AddNewUsers(st, user, id);
    RemoveKnownUsers(added, user, id);
    RemoveAllSnocAbsent(before, id);
    RestoreEntry(st.users, user, before + [id]);
  }

  /** Overwriting an entry and then writing its old value back gives the map back. */
  lemma RestoreEntry(m: map<string, seq<int>>, k: string, v: seq<int>)
    requires k in m
    ensures m[k := v][k := m[k]] == m
  {
    assert m[k := v][k := m[k]].Keys == m.Keys;
  }

  lemma AddNewUsers(st: Store, user: string, id: int)
    requires Valid(st) && user in st.users && !IsFavorite(st, user, id)
    ensures AddFavorite(st, user, id).store.users == st.users[user := st.users[user] + [id]]
  {
  }

  lemma RemoveKnownUsers(st: Store, user: string, id: int)
    requires Valid(st) && user in st.users
    ensures RemoveFavorite(st, user, id).store.users == st.users[user := RemoveAll(st.users[user], id)]
  {
  }

  /** The size reported by `addFavorite` counts the distinct ids, so it grows by one exactly
      when the id was new. */
  lemma AddCountsDistinct(st: Store, user: string, id: int)
    requires Valid(st)
    ensures AddFavorite(st, user, id).outcome.totalFavorites
            == |GetFavorites(st, user)| + (if IsFavorite(st, user, id) then 0 else 1)
  {
  }
}
