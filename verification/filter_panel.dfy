/** The filter state of the list view and the handlers of
    frontend/src/components/FilterPanel.js that change it, with the panel's colour helper
    `adjustColor` and its type icons. */
module FilterPanel {
  import opened Wrappers
  import opened Seqs
  import opened Text
  import Card

  /** An id bound as the panel stores it: `''`, or the number `parseInt` gave. */
  datatype IdBound = Blank | Bound(n: int)

  datatype Filters = Filters(types: seq<string>, sortBy: string, minId: IdBound, maxId: IdBound)

  /** The filters the list view starts with and returns to when cleared. */
  const DefaultFilters := Filters([], "id-asc", Blank, Blank)

  // ---------------------------------------------------------------- handlers

  /** `handleTypeToggle(typeName)`: drop a selected type (every occurrence), or append an
      unselected one; the other fields are copied. */
  function TypeToggle(f: Filters, t: string): (r: Filters)
    ensures t in f.types ==> r.types == RemoveAll(f.types, t)
    ensures t !in f.types ==> r.types == f.types + [t]
    ensures t in r.types <==> t !in f.types
    ensures forall u :: u != t ==> (u in r.types <==> u in f.types)
    ensures r.sortBy == f.sortBy && r.minId == f.minId && r.maxId == f.maxId
  {
    var types := if t in f.types then RemoveAll(f.types, t) else f.types + [t];
    f.(types := types)
  }

  /** Selecting a type and then deselecting it gives back the filters it started from. */
  lemma TypeToggleTwice(f: Filters, t: string)
    requires t !in f.types
    ensures TypeToggle(TypeToggle(f, t), t) == f
  {
    RemoveAllSnocAbsent(f.types, t);
  }

  /** `handleSortChange(e)`. */
  function SortChange(f: Filters, sortBy: string): (r: Filters)
    ensures r.sortBy == sortBy
    ensures r.types == f.types && r.minId == f.minId && r.maxId == f.maxId
  {
    f.(sortBy := sortBy)
  }

  datatype IdField = MinId | MaxId

  /** `value === '' ? '' : parseInt(value) || ''`: text that is empty, does not start
      with a number, or reads as 0, leaves the bound blank. */
  function ParseBound(value: string): (r: IdBound)
    ensures r.Bound? <==> ParseInt(value, None).Some? && ParseInt(value, None).value != 0
    ensures r.Bound? ==> ParseInt(value, None) == Some(r.n)
  {
    if value == "" then Blank
    else
      var p := ParseInt(value, None);
      if p.Some? && p.value != 0 then Bound(p.value) else Blank
  }

  /** `handleIdRangeChange(field, value)`: sets one bound and copies the other fields. */
  function IdRangeChange(f: Filters, field: IdField, value: string): (r: Filters)
    ensures field == MinId ==> r == f.(minId := ParseBound(value))
    ensures field == MaxId ==> r == f.(maxId := ParseBound(value))
  {
    match field
    case MinId => f.(minId := ParseBound(value))
    case MaxId => f.(maxId := ParseBound(value))
  }

  /** Typing a number into the field stores that number, 0 excepted. */
  lemma ParseBoundOfIntToString(n: int)
    ensures ParseBound(IntToString(n)) == if n == 0 then Blank else Bound(n)
  {
    ParseIntOfIntToString(n);
  }

  // ---------------------------------------------------------------- adjustColor

  /** `s.replace('#', '')`: only the first `#` goes. */
  function StripHash(s: string): (r: string)
    ensures '#' !in s ==> r == s
    ensures |s| > 0 && s[0] == '#' ==> r == s[1..]
  {
    if |s| == 0 then ""
    else if s[0] == '#' then s[1..]
    else [s[0]] + StripHash(s[1..])
  }

  /** `s.substr(start, length)` for a non-negative start. */
  function Substr(s: string, start: nat, length: nat): (r: string)
    ensures start + length <= |s| ==> r == s[start..start + length]
    ensures start + length > |s| ==> r == if start < |s| then s[start..] else ""
  {
    if start >= |s| then ""
    else if start + length <= |s| then s[start..start + length]
    else s[start..]
  }

  function Clamp(v: int): (r: int)
    ensures 0 <= r <= 255
    ensures 0 <= v <= 255 ==> r == v
    ensures v < 0 ==> r == 0
    ensures v > 255 ==> r == 255
  {
    if v < 0 then 0 else if v > 255 then 255 else v
  }

  /** One channel: `Math.max(0, Math.min(255, parseInt(hex.substr(start, 2), 16) + amount))`;
      `None` is `NaN`, which `Math.min` and `Math.max` pass on. */
  function Channel(hex: string, start: nat, amount: int): (r: Option<int>)
    ensures r.Some? ==> 0 <= r.value <= 255
  {
    var p := ParseInt(Substr(hex, start, 2), Some(16));
    if p.None? then None else Some(Clamp(p.value + amount))
  }

  /** `c.toString(16).padStart(2, '0')` for a channel, which is `NaN` or a byte: `NaN`
      prints as `NaN`, a byte as two lower-case digits (`ChannelTextIsPaddedHex`). */
  function ChannelText(c: Option<int>): (r: string)
    requires c.Some? ==> 0 <= c.value <= 255
    ensures c.Some? ==> |r| == 2
  {
    if c.None? then "NaN" else ByteDigits(c.value)
  }

  /** `adjustColor(color, amount)`. */
  function AdjustColor(color: string, amount: int): (r: string)
    ensures |r| > 0 && r[0] == '#'
  {
    var hex := StripHash(color);
    "#" + ChannelText(Channel(hex, 0, amount)) + ChannelText(Channel(hex, 2, amount))
        + ChannelText(Channel(hex, 4, amount))
  }

  /** A well-formed colour comes out well-formed and in lower case, each channel moved by
      `amount` and clamped to a byte. */
  lemma AdjustColorChannels(color: string, amount: int)
    requires Card.HexColor(color)
    ensures AdjustedChannels(color, amount, AdjustColor(color, amount))
    ensures AdjustColor(color, amount) == ColorOf(Clamp(ChannelValue(color, 0) + amount),
      Clamp(ChannelValue(color, 1) + amount), Clamp(ChannelValue(color, 2) + amount))
  {
    var v0 := Clamp(ChannelValue(color, 0) + amount);
    var v1 := Clamp(ChannelValue(color, 1) + amount);
    var v2 := Clamp(ChannelValue(color, 2) + amount);
    AdjustColorIsColorOf(color, amount);
    AdjustedOfColorOf(color, amount, v0, v1, v2);
  }

  /** `adjustColor` on a well-formed colour writes the three adjusted bytes. */
  lemma AdjustColorIsColorOf(color: string, amount: int)
    requires Card.HexColor(color)
    ensures AdjustColor(color, amount) == ColorOf(Clamp(ChannelValue(color, 0) + amount),
      Clamp(ChannelValue(color, 1) + amount), Clamp(ChannelValue(color, 2) + amount))
  {
    var v0 := Clamp(ChannelValue(color, 0) + amount);
    var v1 := Clamp(ChannelValue(color, 1) + amount);
    var v2 := Clamp(ChannelValue(color, 2) + amount);
    AdjustedChannelText(color, 0, 0, amount, v0);
    AdjustedChannelText(color, 1, 2, amount, v1);
    AdjustedChannelText(color, 2, 4, amount, v2);
  }

  /** The byte two hexadecimal digits spell. */
  function HexPair(a: char, b: char): (v: nat)
    requires IsDigitIn(a, 16) && IsDigitIn(b, 16)
    ensures v <= 255
  {
    DigitValue(a).value * 16 + DigitValue(b).value
  }

  /** The byte value of channel `k` (0 red, 1 green, 2 blue) of a well-formed colour. */
  function ChannelValue(c: string, k: nat): (v: nat)
    requires Card.HexColor(c) && k < 3
    ensures v <= 255
  {
    assert IsDigitIn(c[1 + 2 * k], 16) && IsDigitIn(c[2 + 2 * k], 16);
    HexPair(c[1 + 2 * k], c[2 + 2 * k])
  }

  /** `r` is a well-formed lower-case colour whose channels are those of `color` moved by
      `amount` and clamped to a byte. */
  predicate AdjustedChannels(color: string, amount: int, r: string)
    requires Card.HexColor(color)
  {
    && Card.HexColor(r)
    && (forall i :: 0 <= i < |r| ==> !IsUpperAscii(r[i]))
    && forall k :: 0 <= k < 3 ==> ChannelValue(r, k) == Clamp(ChannelValue(color, k) + amount)
  }

  /** The two lower-case hexadecimal digits of a byte. */
  function ByteDigits(v: nat): (r: string)
    requires v <= 255
    ensures |r| == 2 && IsDigitIn(r[0], 16) && IsDigitIn(r[1], 16)
    ensures !IsUpperAscii(r[0]) && !IsUpperAscii(r[1])
  {
    [DigitChar(v / 16), DigitChar(v % 16)]
  }

  /** The two digits spell the byte back. */
  lemma ByteDigitsSpell(v: nat)
    requires v <= 255
    ensures HexPair(ByteDigits(v)[0], ByteDigits(v)[1]) == v
  {
  }

  /** A byte's channel text is what `toString(16)` and `padStart(2, '0')` write. */
  lemma ChannelTextIsPaddedHex(v: nat)
    requires v <= 255
    ensures ChannelText(Some(v)) == PadStart(NatToString(v, 16), 2, '0')
  {
    if v >= 16 {
      HexOfWideByte(v);
    } else {
      assert v / 16 == 0 && v % 16 == v;
      assert NatToString(v, 16) == [DigitChar(v)];
      assert PadStart([DigitChar(v)], 2, '0') == Repeat('0', 1) + [DigitChar(v)];
      assert Repeat('0', 1) == [DigitChar(0)];
    }
  }

  /** A byte of at least 16 takes two hexadecimal digits. */
  lemma HexOfWideByte(v: nat)
    requires 16 <= v <= 255
    ensures NatToString(v, 16) == [DigitChar(v / 16), DigitChar(v % 16)]
  {
    var q := v / 16;
    assert q < 16;
    assert NatToString(q, 16) == [DigitChar(q)];
  }

  lemma HexPairParses(a: char, b: char)
    requires IsDigitIn(a, 16) && IsDigitIn(b, 16)
    ensures ParseInt([a, b], Some(16)) == Some(HexPair(a, b))
  {
    ParseIntOfDigitsIn([a, b], 16);
    TwoDigitsValue(a, b, 16);
  }

  lemma TwoDigitsValue(a: char, b: char, radix: nat)
    requires IsDigitIn(a, radix) && IsDigitIn(b, radix)
    ensures DigitsValue([a, b], radix) == DigitValue(a).value * radix + DigitValue(b).value
  {
    var p := [a, b];
    assert p[..1] == [a] && [a][..0] == [];
    assert DigitsValue([a], radix) == DigitValue(a).value by {
      assert DigitsValue([a], radix) == DigitsValue([], radix) * radix + DigitValue(a).value;
    }
    assert DigitsValue(p, radix) == DigitsValue(p[..1], radix) * radix + DigitValue(p[1]).value;
  }

  lemma ChannelOfHexColor(color: string, k: nat, amount: int)
    requires Card.HexColor(color) && k < 3
    ensures Channel(StripHash(color), 2 * k, amount) == Some(Clamp(ChannelValue(color, k) + amount))
  {
    var hex := StripHash(color);
    assert hex == color[1..];
    var a, b := color[1 + 2 * k], color[2 + 2 * k];
    assert IsDigitIn(a, 16) && IsDigitIn(b, 16);
    assert Substr(hex, 2 * k, 2) == [a, b];
    HexPairParses(a, b);
  }

  /** The colour whose channels are the three given bytes, as `adjustColor` writes it. */
  function ColorOf(v0: nat, v1: nat, v2: nat): string
    requires v0 <= 255 && v1 <= 255 && v2 <= 255
  {
    "#" + ByteDigits(v0) + ByteDigits(v1) + ByteDigits(v2)
  }

  lemma ColorOfChannels(v0: nat, v1: nat, v2: nat)
    requires v0 <= 255 && v1 <= 255 && v2 <= 255
    ensures var r := ColorOf(v0, v1, v2);
      && Card.HexColor(r)
      && (forall i :: 0 <= i < |r| ==> !IsUpperAscii(r[i]))
      && ChannelValue(r, 0) == v0 && ChannelValue(r, 1) == v1 && ChannelValue(r, 2) == v2
  {
    var d0, d1, d2 := ByteDigits(v0), ByteDigits(v1), ByteDigits(v2);
    var r := ColorOf(v0, v1, v2);
    assert r == ['#', d0[0], d0[1], d1[0], d1[1], d2[0], d2[1]];
    ByteDigitsSpell(v0);
    ByteDigitsSpell(v1);
    ByteDigitsSpell(v2);
  }

  /** Channel `k` of a well-formed colour, as `adjustColor` writes it after adjusting. */
  lemma AdjustedChannelText(color: string, k: nat, start: nat, amount: int, v: nat)
    requires Card.HexColor(color) && k < 3 && start == 2 * k
    requires v == Clamp(ChannelValue(color, k) + amount)
    ensures ChannelText(Channel(StripHash(color), start, amount)) == ByteDigits(v)
  {
    ChannelOfHexColor(color, k, amount);
  }

  /** The colour written from the three adjusted bytes has exactly those channels. */
  lemma AdjustedOfColorOf(color: string, amount: int, v0: nat, v1: nat, v2: nat)
    requires Card.HexColor(color)
    requires v0 == Clamp(ChannelValue(color, 0) + amount)
    requires v1 == Clamp(ChannelValue(color, 1) + amount)
    requires v2 == Clamp(ChannelValue(color, 2) + amount)
    ensures AdjustedChannels(color, amount, ColorOf(v0, v1, v2))
  {
    ColorOfChannels(v0, v1, v2);
    var r := ColorOf(v0, v1, v2);
    forall k | 0 <= k < 3 ensures ChannelValue(r, k) == Clamp(ChannelValue(color, k) + amount) {
      assert k == 0 || k == 1 || k == 2;
    }
  }

  /** A hexadecimal digit written back from its value is the digit in lower case. */
  lemma DigitCharOfValue(c: char)
    requires IsDigitIn(c, 16)
    ensures DigitChar(DigitValue(c).value) == LowerChar(c)
  {
  }

  /** Rewriting a byte spelled by two digits gives the same digits in lower case. */
  lemma ByteDigitsOfPair(a: char, b: char)
    requires IsDigitIn(a, 16) && IsDigitIn(b, 16)
    ensures ByteDigits(HexPair(a, b)) == [LowerChar(a), LowerChar(b)]
  {
    var v := HexPair(a, b);
    assert v / 16 == DigitValue(a).value && v % 16 == DigitValue(b).value;
    DigitCharOfValue(a);
    DigitCharOfValue(b);
  }

  /** Writing back the bytes of a well-formed colour lower-cases it. */
  lemma ColorOfChannelValues(color: string)
    requires Card.HexColor(color)
    ensures ColorOf(ChannelValue(color, 0), ChannelValue(color, 1), ChannelValue(color, 2)) == Lower(color)
  {
    assert IsDigitIn(color[1], 16) && IsDigitIn(color[2], 16) && IsDigitIn(color[3], 16);
    assert IsDigitIn(color[4], 16) && IsDigitIn(color[5], 16) && IsDigitIn(color[6], 16);
    ByteDigitsOfPair(color[1], color[2]);
    ByteDigitsOfPair(color[3], color[4]);
    ByteDigitsOfPair(color[5], color[6]);
    assert Lower(color) == [LowerChar(color[0]), LowerChar(color[1]), LowerChar(color[2]),
      LowerChar(color[3]), LowerChar(color[4]), LowerChar(color[5]), LowerChar(color[6])];
  }

  /** Adjusting by 0 only lower-cases a well-formed colour, so a lower-case colour comes
      back unchanged. */
  lemma AdjustByZero(color: string)
    requires Card.HexColor(color)
    ensures AdjustColor(color, 0) == Lower(color)
  {
    AdjustColorChannels(color, 0);
    ColorOfChannelValues(color);
  }

  // ---------------------------------------------------------------- type list and icons

  /** `POKEMON_TYPES`: the selectable types with their badge colours. */
  const PanelTypes: seq<(string, string)> := [
    ("normal", "#A8A878"), ("fire", "#F08030"), ("water", "#6890F0"),
    ("electric", "#F8D030"), ("grass", "#78C850"), ("ice", "#98D8D8"),
    ("fighting", "#C03028"), ("poison", "#A040A0"), ("ground", "#E0C068"),
    ("flying", "#A890F0"), ("psychic", "#F85888"), ("bug", "#A8B820"),
    ("rock", "#B8A038"), ("ghost", "#705898"), ("dragon", "#7038F8"),
    ("dark", "#705848"), ("steel", "#B8B8D0"), ("fairy", "#EE99AC")
  ]

  /** The panel's colours are the card's colours: a type button and a type badge match. */
  lemma PanelColorsMatchCards()
    ensures forall i :: 0 <= i < |PanelTypes| ==> Card.TypeColor(PanelTypes[i].0) == PanelTypes[i].1
  {
  }

  /** The panel offers exactly the types the cards have colours for. */
  lemma PanelOffersCardTypes()
    ensures forall t :: t in Card.TypeColors <==> t in PanelNames()
  {
    PanelNamesInOrder();
    assert Card.TypeColors.Keys == {
      "normal", "fire", "water", "electric", "grass", "ice", "fighting", "poison", "ground",
      "flying", "psychic", "bug", "rock", "ghost", "dragon", "dark", "steel", "fairy"};
  }

  lemma PanelNamesInOrder()
    ensures PanelNames() == [
      "normal", "fire", "water", "electric", "grass", "ice", "fighting", "poison", "ground",
      "flying", "psychic", "bug", "rock", "ghost", "dragon", "dark", "steel", "fairy"]
  {
  }

  function PanelNames(): (r: seq<string>)
    ensures |r| == |PanelTypes|
    ensures forall i :: 0 <= i < |r| ==> r[i] == PanelTypes[i].0
  {
    seq(|PanelTypes|, i requires 0 <= i < |PanelTypes| => PanelTypes[i].0)
  }

  const FallbackIcon := "\U{2753}"

  /** The `icons` table of `getTypeIcon`. */
  const TypeIcons: map<string, string> := map[
    "normal" := "\U{2B50}", "fire" := "\U{1F525}", "water" := "\U{1F4A7}",
    "electric" := "\U{26A1}", "grass" := "\U{1F33F}", "ice" := "\U{2744}\U{FE0F}",
    "fighting" := "\U{1F44A}", "poison" := "\U{2620}\U{FE0F}", "ground" := "\U{1F30D}",
    "flying" := "\U{1F985}", "psychic" := "\U{1F52E}", "bug" := "\U{1F41B}",
    "rock" := "\U{1FAA8}", "ghost" := "\U{1F47B}", "dragon" := "\U{1F409}",
    "dark" := "\U{1F319}", "steel" := "\U{2699}\U{FE0F}", "fairy" := "\U{2728}"
  ]

  /** `getTypeIcon(type)`: `icons[type] || '❓'`. */
  function TypeIcon(t: string): (r: string)
    ensures t in TypeIcons ==> r == TypeIcons[t]
    ensures t !in TypeIcons ==> r == FallbackIcon
  {
    if t in TypeIcons && TypeIcons[t] != "" then TypeIcons[t] else FallbackIcon
  }

  /** Every selectable type has an icon of its own, never the fallback. */
  lemma PanelTypesHaveIcons()
    ensures forall i :: 0 <= i < |PanelTypes| ==> TypeIcon(PanelTypes[i].0) != FallbackIcon
  {
  }
}
