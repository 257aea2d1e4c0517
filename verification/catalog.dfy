/** The records that travel between the upstream catalogue API, the backend and the
    frontend (backend/server.js:58-82, 164-178, 204-221; frontend/src/hooks/useFavorites.js:136-152). */
module Catalog {
  import opened Wrappers

  /** A list entry of the upstream API: enough to ask for the details, not to display. */
  datatype Ref = Ref(name: string, url: string)

  /** The four sprite URLs of a detail body (`null` ones are `None`). */
  datatype Sprites = Sprites(frontDefault: Option<string>, frontShiny: Option<string>,
                             backDefault: Option<string>, backShiny: Option<string>)

  /** An `abilities[]` entry: `ability.name` and `is_hidden`. */
  datatype AbilitySlot = AbilitySlot(name: string, isHidden: bool)

  /** A `stats[]` entry: `stat.name` and `base_stat`. */
  datatype StatSlot = StatSlot(name: string, baseStat: int)

  /** An upstream detail body, with the nested `types[].type.name` objects projected to their
      names. `stats` is `None` when the body has no readable `stats` array, so that reading
      it throws; `baseExperience` is `None` when the field is absent or `null`. */
  datatype RawDetail = RawDetail(
    id: int, name: string, types: seq<string>, sprites: Sprites,
    height: int, weight: int, abilities: seq<AbilitySlot>,
    stats: Option<seq<StatSlot>>, baseExperience: Option<int>)

  /** A JSON value the backend receives from upstream or keeps in its cache. */
  datatype Value =
    | PageBody(count: int, next: Option<string>, previous: Option<string>, results: seq<Ref>)
    | DetailBody(detail: RawDetail)
    | RefArray(refs: seq<Ref>)   // a bare array of references: the search snapshot
    | Nullish                    // `null` or `undefined`: reading a field of it throws
    | Falsy                      // `false`, `0` or `""`: a field of it reads as `undefined`

  predicate Truthy(v: Value) {
    !v.Nullish? && !v.Falsy?
  }

  /** The enriched record of the list pipeline and of the frontend's favourites list. */
  datatype Pokemon = Pokemon(
    id: int, name: string, types: seq<string>, sprite: Option<string>,
    height: int, weight: int, abilities: seq<string>)

  /** The smaller record the search pipeline returns. */
  datatype SearchHit = SearchHit(id: int, name: string, types: seq<string>, sprite: Option<string>)

  /** The record the backend's favourites listing returns (no abilities). */
  datatype FavoriteHit = FavoriteHit(
    id: int, name: string, types: seq<string>, sprite: Option<string>, height: int, weight: int)

  /** `abilities.map(a => a.ability.name)`. */
  function AbilityNames(abilities: seq<AbilitySlot>): (r: seq<string>)
    ensures |r| == |abilities|
    ensures forall i :: 0 <= i < |r| ==> r[i] == abilities[i].name
  {
    seq(|abilities|, i requires 0 <= i < |abilities| => abilities[i].name)
  }

  /** Reading the detail fields of anything but a detail body throws (`undefined.map`),
      which the enrichment code turns into `null`: here `None`. */
  function ToPokemon(v: Value): (r: Option<Pokemon>)
    ensures r.Some? <==> v.DetailBody?
    ensures r.Some? ==> r.value.id == v.detail.id && r.value.name == v.detail.name
                        && r.value.types == v.detail.types && r.value.sprite == v.detail.sprites.frontDefault
                        && r.value.height == v.detail.height && r.value.weight == v.detail.weight
                        && r.value.abilities == AbilityNames(v.detail.abilities)
  {
    match v
    case DetailBody(d) =>
      Some(Pokemon(d.id, d.name, d.types, d.sprites.frontDefault, d.height, d.weight, AbilityNames(d.abilities)))
    case _ => None
  }

  function ToSearchHit(v: Value): (r: Option<SearchHit>)
    ensures r.Some? <==> v.DetailBody?
    ensures r.Some? ==> r.value == SearchHit(v.detail.id, v.detail.name, v.detail.types, v.detail.sprites.frontDefault)
  {
    match v
    case DetailBody(d) => Some(SearchHit(d.id, d.name, d.types, d.sprites.frontDefault))
    case _ => None
  }

  function ToFavoriteHit(v: Value): (r: Option<FavoriteHit>)
    ensures r.Some? <==> v.DetailBody?
    ensures r.Some? ==> r.value == FavoriteHit(v.detail.id, v.detail.name, v.detail.types,
                                               v.detail.sprites.frontDefault, v.detail.height, v.detail.weight)
  {
    match v
    case DetailBody(d) => Some(FavoriteHit(d.id, d.name, d.types, d.sprites.frontDefault, d.height, d.weight))
    case _ => None
  }

  /** The search record is the list record with the size and ability fields left out. */
  lemma SearchHitIsPokemonSummary(v: Value)
    ensures ToSearchHit(v).Some? <==> ToPokemon(v).Some?
    ensures ToPokemon(v).Some? ==>
      var p := ToPokemon(v).value;
      ToSearchHit(v).value == SearchHit(p.id, p.name, p.types, p.sprite)
  {
  }

  /** The favourites record is the list record without the ability names. */
  lemma FavoriteHitIsPokemonSummary(v: Value)
    ensures ToFavoriteHit(v).Some? <==> ToPokemon(v).Some?
    ensures ToPokemon(v).Some? ==>
      var p := ToPokemon(v).value;
      ToFavoriteHit(v).value == FavoriteHit(p.id, p.name, p.types, p.sprite, p.height, p.weight)
  {
  }

  /** The body of a successful detail reply: the four sprites, the abilities with their
      `is_hidden` flags, the stats and the base experience. */
  datatype DetailRecord = DetailRecord(
    id: int, name: string, types: seq<string>, sprites: Sprites, height: int, weight: int,
    abilities: seq<AbilitySlot>, stats: seq<StatSlot>, baseExperience: Option<int>)

  /** The detail route's `pokemonDetails`: reading the fields of anything but a detail body
      throws, and so does `data.stats.map` on a body without readable stats. */
  function ToDetailRecord(v: Value): (r: Option<DetailRecord>)
    ensures r.Some? <==> v.DetailBody? && v.detail.stats.Some?
    ensures r.Some? ==> r.value.sprites == v.detail.sprites && r.value.abilities == v.detail.abilities
                        && r.value.stats == v.detail.stats.value
                        && r.value.baseExperience == v.detail.baseExperience
  {
    match v
    case DetailBody(d) =>
      if d.stats.None? then None
      else Some(DetailRecord(d.id, d.name, d.types, d.sprites, d.height, d.weight, d.abilities,
                             d.stats.value, d.baseExperience))
    case _ => None
  }

  /** Whatever the detail route can show, the list route shows too, with the same id, name,
      types, sizes, front sprite and ability names; the converse fails only for a body
      without stats. */
  lemma DetailRecordExtendsPokemon(v: Value)
    ensures ToDetailRecord(v).Some? ==> ToPokemon(v).Some?
    ensures ToPokemon(v).Some? && v.detail.stats.Some? ==> ToDetailRecord(v).Some?
    ensures ToDetailRecord(v).Some? ==>
      var d, p := ToDetailRecord(v).value, ToPokemon(v).value;
      && p.id == d.id && p.name == d.name && p.types == d.types
      && p.height == d.height && p.weight == d.weight
      && p.sprite == d.sprites.frontDefault && p.abilities == AbilityNames(d.abilities)
  {
  }
}
