/** The favourites routes of backend/server.js: request validation, the user id defaults,
    and the delegation to the favourites store, plus the enriched favourites listing. */
module FavoritesRoutes {
  import opened Wrappers
  import opened Seqs
  import opened Text
  import opened Catalog
  import opened Fetcher
  import opened Server
  import opened FavoritesStore

  const DefaultUser := "default"
  const InvalidId := "Valid pokemonId is required"

  /** A JSON value of a request body, as far as the validation tells values apart
      (`JComposite` is an array or an object). */
  datatype Json = JNull | JBool(b: bool) | JNum(n: int) | JText(text: string) | JComposite

  /** A JSON request body: `pokemonId` and `userId`, each possibly absent. */
  datatype FavoriteBody = FavoriteBody(pokemonId: Option<Json>, userId: Option<string>)

  datatype Handled<T> = Handled(store: Store, reply: Reply<T>)

  /** The body's `pokemonId` under `!pokemonId || typeof pokemonId !== 'number'`:
      only a non-zero number passes. */
  function BodyPokemonId(v: Option<Json>): (r: Option<int>)
    ensures r.Some? <==> v.Some? && v.value.JNum? && v.value.n != 0
    ensures r.Some? ==> v == Some(JNum(r.value))
  {
    match v
    case Some(JNum(n)) => if n != 0 then Some(n) else None
    case _ => None
  }

  /** A path `:pokemonId` under `parseInt` then `!pokemonId || isNaN(pokemonId)`:
      text without a leading number, and 0, are rejected. */
  function PathPokemonId(param: string): (r: Option<int>)
    ensures r.Some? <==> ParseInt(param, None).Some? && ParseInt(param, None).value != 0
    ensures r.Some? ==> ParseInt(param, None) == r
  {
    var p := ParseInt(param, None);
    if p.Some? && p.value != 0 then p else None
  }

  /** Every non-zero id written in decimal passes the path validation and is read back. */
  lemma PathPokemonIdOfIntToString(n: int)
    ensures PathPokemonId(IntToString(n)) == if n == 0 then None else Some(n)
  {
    ParseIntOfIntToString(n);
  }

  /** `const { userId = 'default' } = req.body`: the default applies only when the key is absent. */
  function BodyUser(u: Option<string>): (r: string)
    ensures u.None? ==> r == DefaultUser
    ensures u.Some? ==> r == u.value
  {
    if u.None? then DefaultUser else u.value
  }

  /** `req.query.userId || 'default'`: an empty id also means the default user. */
  function QueryUser(u: Option<string>): (r: string)
    ensures r != ""
    ensures u.Some? && u.value != "" ==> r == u.value
    ensures u.None? || u.value == "" ==> r == DefaultUser
  {
    if u.Some? && u.value != "" then u.value else DefaultUser
  }

  /** The two defaults agree except on the empty id, which a body keeps and a query replaces. */
  lemma UserDefaultsAgree(u: Option<string>)
    ensures BodyUser(u) == QueryUser(u) <==> u != Some("")
  {
  }

  // ---------------------------------------------------------------- POST /api/favorites

  /** `POST /api/favorites`. */
  function PostFavorite(st: Store, body: FavoriteBody): (r: Handled<Outcome>)
    requires Valid(st)
    ensures Valid(r.store)
    ensures BodyPokemonId(body.pokemonId).None? ==> r == Handled(st, Failure(400, InvalidId))
    ensures BodyPokemonId(body.pokemonId).Some? ==>
      var id := BodyPokemonId(body.pokemonId).value;
      var user := BodyUser(body.userId);
      && IsFavorite(r.store, user, id)
      && r.reply == Success(Changed(true, id, |GetFavorites(r.store, user)|))
      && (forall x :: x != id ==> (IsFavorite(r.store, user, x) <==> IsFavorite(st, user, x)))
      && (forall u :: u != user ==> GetFavorites(r.store, u) == GetFavorites(st, u))
  {
    var id := BodyPokemonId(body.pokemonId);
    if id.None? then Handled(st, Failure(400, InvalidId))
    else
      var u := AddFavorite(st, BodyUser(body.userId), id.value);
      Handled(u.store, Success(u.outcome))
  }

  // ---------------------------------------------------------------- DELETE /api/favorites/:pokemonId

  /** `DELETE /api/favorites/:pokemonId?userId`. An unknown user is still a 200, whose
      body says `success: false`. */
  function DeleteFavorite(st: Store, param: string, userId: Option<string>): (r: Handled<Outcome>)
    requires Valid(st)
    ensures Valid(r.store)
    ensures PathPokemonId(param).None? ==> r == Handled(st, Failure(400, InvalidId))
    ensures PathPokemonId(param).Some? ==>
      var id := PathPokemonId(param).value;
      var user := QueryUser(userId);
      && !IsFavorite(r.store, user, id)
      && r.reply.Success?
      && (user in st.users ==> r.reply.body == Changed(IsFavorite(st, user, id), id, |GetFavorites(r.store, user)|))
      && (user !in st.users ==> r.store == st && r.reply.body == NoFavorites("No favorites found"))
      && (forall x :: x != id ==> (IsFavorite(r.store, user, x) <==> IsFavorite(st, user, x)))
      && (forall u :: u != user ==> GetFavorites(r.store, u) == GetFavorites(st, u))
  {
    var id := PathPokemonId(param);
    if id.None? then Handled(st, Failure(400, InvalidId))
    else
      var u := RemoveFavorite(st, QueryUser(userId), id.value);
      Handled(u.store, Success(u.outcome))
  }

  // ---------------------------------------------------------------- POST /api/favorites/toggle

  datatype ToggleBody = ToggleBody(outcome: Outcome, isFavorite: bool)

  /** `POST /api/favorites/toggle`: the store's toggle, plus the membership afterwards. */
  function ToggleRoute(st: Store, body: FavoriteBody): (r: Handled<ToggleBody>)
    requires Valid(st)
    ensures Valid(r.store)
    ensures BodyPokemonId(body.pokemonId).None? ==> r == Handled(st, Failure(400, InvalidId))
    ensures BodyPokemonId(body.pokemonId).Some? ==>
      var id := BodyPokemonId(body.pokemonId).value;
      var user := BodyUser(body.userId);
      && r.reply.Success?
      && r.reply.body.outcome.Changed? && r.reply.body.outcome.success
      && r.reply.body.outcome.pokemonId == id
      // the reported flag is the new membership, which is the old one flipped
      && (r.reply.body.isFavorite <==> IsFavorite(r.store, user, id))
      && (r.reply.body.isFavorite <==> !IsFavorite(st, user, id))
      && (forall x :: x != id ==> (IsFavorite(r.store, user, x) <==> IsFavorite(st, user, x)))
      && (forall u :: u != user ==> GetFavorites(r.store, u) == GetFavorites(st, u))
  {
    var id := BodyPokemonId(body.pokemonId);
    if id.None? then Handled(st, Failure(400, InvalidId))
    else
      var user := BodyUser(body.userId);
      var u := ToggleFavorite(st, user, id.value);
      Handled(u.store, Success(ToggleBody(u.outcome, IsFavorite(u.store, user, id.value))))
  }

  /** Toggling the same id twice leaves every user's membership as it was. */
  lemma ToggleRouteTwice(st: Store, body: FavoriteBody, x: int, u: string)
    requires Valid(st)
    ensures var once := ToggleRoute(st, body).store;
      IsFavorite(ToggleRoute(once, body).store, u, x) <==> IsFavorite(st, u, x)
  {
    var once := ToggleRoute(st, body).store;
    var twice := ToggleRoute(once, body).store;
    if BodyPokemonId(body.pokemonId).Some? && u != BodyUser(body.userId) {
      assert GetFavorites(twice, u) == GetFavorites(once, u) == GetFavorites(st, u);
    }
  }

  // ---------------------------------------------------------------- GET /api/favorites/check/:pokemonId

  datatype CheckBody = CheckBody(pokemonId: int, isFavorite: bool)

  /** `GET /api/favorites/check/:pokemonId?userId`: reads the store, changes nothing. */
  function CheckFavorite(st: Store, param: string, userId: Option<string>): (r: Reply<CheckBody>)
    ensures PathPokemonId(param).None? ==> r == Failure(400, InvalidId)
    ensures PathPokemonId(param).Some? ==>
      && r.Success?
      && r.body.pokemonId == PathPokemonId(param).value
      && (r.body.isFavorite <==> PathPokemonId(param).value in GetFavorites(st, QueryUser(userId)))
  {
    var id := PathPokemonId(param);
    if id.None? then Failure(400, InvalidId)
    else Success(CheckBody(id.value, IsFavorite(st, QueryUser(userId), id.value)))
  }

  /** A favourite added through the body is reported by the check route, as long as
      the body and the query name the same user. */
  lemma PostThenCheck(st: Store, n: int, u: Option<string>)
    requires Valid(st) && n != 0 && u != Some("")
    ensures var after := PostFavorite(st, FavoriteBody(Some(JNum(n)), u)).store;
      CheckFavorite(after, IntToString(n), u) == Success(CheckBody(n, true))
  {
    PathPokemonIdOfIntToString(n);
    UserDefaultsAgree(u);
  }

  /** A favourite deleted through the path is no longer reported. */
  lemma DeleteThenCheck(st: Store, n: int, u: Option<string>)
    requires Valid(st) && n != 0
    ensures var after := DeleteFavorite(st, IntToString(n), u).store;
      CheckFavorite(after, IntToString(n), u) == Success(CheckBody(n, false))
  {
    PathPokemonIdOfIntToString(n);
  }

  // ---------------------------------------------------------------- GET /api/favorites

  datatype FavoritesBody = FavoritesBody(count: nat, results: seq<FavoriteHit>)

  function FavoriteEndpoints(ids: seq<int>): (r: seq<string>)
    ensures |r| == |ids|
    ensures forall i :: 0 <= i < |ids| ==> r[i] == DetailEndpoint(IntToString(ids[i]))
  {
    seq(|ids|, i requires 0 <= i < |ids| => DetailEndpoint(IntToString(ids[i])))
  }

  /** `GET /api/favorites?userId`: `count` is the number of stored ids, `results` the
      details that could be fetched, in the order the ids were added. */
  function ListFavorites(s: Backend, st: Store, userId: Option<string>, upstream: Upstream, now: int)
    : (r: Served<FavoritesBody>)
    ensures var ids := GetFavorites(st, QueryUser(userId));
      var eps := FavoriteEndpoints(ids);
      && r.reply.Success?
      && r.reply.body.count == |ids|
      && r.reply.body.results == Somes(Project(LoneResults(s, eps, upstream, now), ToFavoriteHit))
      && |r.reply.body.results| <= r.reply.body.count
      && r.state.requests == s.requests + Missed(s.cache, eps, now)
  {
    var ids := GetFavorites(st, QueryUser(userId));
    var e := Enrich(s, FavoriteEndpoints(ids), ToFavoriteHit, upstream, now);
    Served(e.0, Success(FavoritesBody(|ids|, e.1)))
  }

  /** The count and the listing disagree exactly when some detail call failed. */
  lemma ListFavoritesCountsFailures(s: Backend, st: Store, userId: Option<string>, upstream: Upstream, now: int)
    ensures var ids := GetFavorites(st, QueryUser(userId));
      var body := ListFavorites(s, st, userId, upstream, now).reply.body;
      body.count - |body.results|
        == NoneCount(Project(LoneResults(s, FavoriteEndpoints(ids), upstream, now), ToFavoriteHit))
  {
  }
}
