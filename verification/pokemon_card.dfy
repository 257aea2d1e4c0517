/** The display logic of frontend/src/components/PokemonCard.js: the id label, the
    capitalised name, the colour of each type badge, and the favourite button. */
module Card {
  import opened Wrappers
  import opened Text

  // ---------------------------------------------------------------- id label

  const IdWidth: nat := 3

  /** `#${String(id).padStart(3, '0')}`. */
  function IdLabel(id: int): (r: string)
    ensures |r| == 1 + (if |IntToString(id)| >= IdWidth then |IntToString(id)| else IdWidth)
    ensures r == "#" + Repeat('0', |r| - 1 - |IntToString(id)|) + IntToString(id)
  {
    "#" + PadStart(IntToString(id), IdWidth, '0')
  }

  /** An id of three digits or more is shown as it is. */
  lemma IdLabelOfLongId(id: int)
    requires |IntToString(id)| >= IdWidth
    ensures IdLabel(id) == "#" + IntToString(id)
  {
  }

  /** The padded digits still read as the id: the label identifies the card. */
  lemma {:induction false} IdLabelReadsBack(id: int)
    requires id >= 0
    ensures ParseInt(IdLabel(id)[1..], None) == Some(id)
  {
    var d := IntToString(id);
    assert d == NatToString(id, 10);
    var z: nat := if |d| >= IdWidth then 0 else IdWidth - |d|;
    var p := Repeat('0', z) + d;
    assert IdLabel(id)[1..] == p;
    DigitsValueLeadingZeros(z, d, 10);
    ParseIntOfDigits(p);
    NatToStringValue(id, 10);
  }

  /** Distinct non-negative ids get distinct labels. */
  lemma IdLabelInjective(a: int, b: int)
    requires a >= 0 && b >= 0 && IdLabel(a) == IdLabel(b)
    ensures a == b
  {
    IdLabelReadsBack(a);
    IdLabelReadsBack(b);
  }

  // ---------------------------------------------------------------- name

  /** `name.charAt(0).toUpperCase() + name.slice(1)`. */
  function Capitalize(name: string): (r: string)
    ensures |r| == |name|
    ensures |name| > 0 ==> r[0] == UpperChar(name[0]) && r[1..] == name[1..]
  {
    if |name| == 0 then "" else [UpperChar(name[0])] + name[1..]
  }

  /** Capitalising changes no letter but the case of the first. */
  lemma CapitalizeKeepsLetters(name: string)
    ensures Lower(Capitalize(name)) == Lower(name)
  {
    if |name| > 0 {
      LowerUpperChar(name[0]);
      assert Lower(Capitalize(name))[0] == Lower(name)[0];
    }
  }

  lemma CapitalizeIdempotent(name: string)
    ensures Capitalize(Capitalize(name)) == Capitalize(name)
  {
  }

  // ---------------------------------------------------------------- type colours

  /** `#` followed by six hexadecimal digits. */
  predicate HexColor(c: string) {
    |c| == 7 && c[0] == '#' && forall i :: 1 <= i < 7 ==> IsDigitIn(c[i], 16)
  }

  const FallbackColor := "#68A090"

  /** The `typeColors` table. */
  const TypeColors: map<string, string> := map[
    "normal" := "#A8A878", "fire" := "#F08030", "water" := "#6890F0",
    "electric" := "#F8D030", "grass" := "#78C850", "ice" := "#98D8D8",
    "fighting" := "#C03028", "poison" := "#A040A0", "ground" := "#E0C068",
    "flying" := "#A890F0", "psychic" := "#F85888", "bug" := "#A8B820",
    "rock" := "#B8A038", "ghost" := "#705898", "dragon" := "#7038F8",
    "dark" := "#705848", "steel" := "#B8B8D0", "fairy" := "#EE99AC"
  ]

  /** `getTypeColor(type)`: the table's colour, or the fallback for any other type. */
  function TypeColor(t: string): (r: string)
    ensures t in TypeColors ==> r == TypeColors[t]
    ensures t !in TypeColors ==> r == FallbackColor
  {
    if t in TypeColors then TypeColors[t] else FallbackColor
  }

  /** Every badge colour, known type or not, is a well-formed hexadecimal colour. */
  lemma TypeColorIsHex(t: string)
    ensures HexColor(TypeColor(t))
  {
  }

  // ---------------------------------------------------------------- favourite button

  /** `handleFavoriteClick`: the id handed to `onToggleFavorite`, when one is supplied. */
  function FavoriteClick(id: int, hasHandler: bool): (r: Option<int>)
    ensures r.Some? <==> hasHandler
    ensures r.Some? ==> r.value == id
  {
    if hasHandler then Some(id) else None
  }

  datatype FavoriteButton = FavoriteButton(glyph: string, ariaLabel: string)

  /** The favourite button, shown only with a handler: a filled or an empty star, and the
      matching accessible label. */
  function FavoriteButtonOf(isFavorite: bool, hasHandler: bool): (r: Option<FavoriteButton>)
    ensures r.Some? <==> hasHandler
    ensures r.Some? ==> r.value.glyph == (if isFavorite then "★" else "☆")
    ensures r.Some? ==> r.value.ariaLabel == (if isFavorite then "Remove from favorites" else "Add to favorites")
  {
    if !hasHandler then None
    else if isFavorite then Some(FavoriteButton("★", "Remove from favorites"))
    else Some(FavoriteButton("☆", "Add to favorites"))
  }

  /** The button tells the two states apart: glyph and label each determine the flag. */
  lemma FavoriteButtonDistinguishes(a: bool, b: bool)
    ensures FavoriteButtonOf(a, true).value.glyph == FavoriteButtonOf(b, true).value.glyph <==> a == b
    ensures FavoriteButtonOf(a, true).value.ariaLabel == FavoriteButtonOf(b, true).value.ariaLabel <==> a == b
  {
  }
}
