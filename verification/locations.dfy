/** The nested country → state → city tables both location pickers use, and
    their two lookups: the states of a country, and the cities of a state of
    a country. A table is written as a list of entries, in the order its
    keys are listed; an unknown key yields an empty list. */
module Locations {
  import opened Wrappers
  import opened Text

  datatype Region = Region(name: string, cities: seq<string>)
  datatype Country = Country(name: string, regions: seq<Region>)

  /** The position of the first key equal to `name`: a dictionary lookup on
      one level of the table. */
  function FindKey(keys: seq<string>, name: string): (r: Option<nat>)
    ensures r.Some? ==> r.value < |keys| && keys[r.value] == name
    ensures r.Some? ==> forall j :: 0 <= j < r.value ==> keys[j] != name
    ensures r.None? ==> name !in keys
  {
    if keys == [] then None
    else if keys[0] == name then Some(0)
    else match FindKey(keys[1..], name)
      case None => None
      case Some(i) => Some(i + 1)
  }

  /** The keys of one level of the table, in order: `RegionNames` for the
      states of a country and `CountryNames` for the countries. They are the
      same projection written twice because the two levels hold entries of
      different types. */
  function RegionNames(regions: seq<Region>): (r: seq<string>)
    ensures |r| == |regions|
    ensures forall i :: 0 <= i < |regions| ==> r[i] == regions[i].name
  {
    seq(|regions|, i requires 0 <= i < |regions| => regions[i].name)
  }

  function CountryNames(table: seq<Country>): (r: seq<string>)
    ensures |r| == |table|
    ensures forall i :: 0 <= i < |table| ==> r[i] == table[i].name
  {
    seq(|table|, i requires 0 <= i < |table| => table[i].name)
  }

  /** The state options for a country: the keys of its entry, or nothing. */
  function StateOptions(table: seq<Country>, country: string): seq<string> {
    match FindKey(CountryNames(table), country)
    case None => []
    case Some(i) => RegionNames(table[i].regions)
  }

  /** The city options for a state of a country: its list, or nothing when
      either key is unknown. */
  function CityOptions(table: seq<Country>, country: string, state: string): seq<string> {
    match FindKey(CountryNames(table), country)
    case None => []
    case Some(i) =>
      match FindKey(RegionNames(table[i].regions), state)
      case None => []
      case Some(j) => table[i].regions[j].cities
  }

  /** No two entries of a level share a key, as in a dictionary. */
  predicate DistinctKeys(names: seq<string>) {
    forall i, j :: 0 <= i < j < |names| ==> names[i] != names[j]
  }

  /** Keys listed in strictly increasing order. */
  predicate Ascending(names: seq<string>) {
    forall i :: 0 <= i < |names| - 1 ==> Before(names[i], names[i + 1])
  }

  /** Keys in strictly increasing order are distinct. */
  lemma AscendingDistinct(names: seq<string>)
    requires Ascending(names)
    ensures DistinctKeys(names)
  {
    forall i, j | 0 <= i < j < |names| ensures names[i] != names[j] {
      AscendingBefore(names, i, j);
      BeforeIrreflexive(names[i]);
    }
  }

  lemma {:induction false} AscendingBefore(names: seq<string>, i: nat, j: nat)
    requires Ascending(names) && i < j < |names|
    ensures Before(names[i], names[j])
    decreases j - i
  {
    if i + 1 < j {
      AscendingBefore(names, i + 1, j);
      BeforeTransitive(names[i], names[i + 1], names[j]);
    }
  }

  /** A table written as nested dictionaries: distinct keys at every level,
      and a city list under every state. */
  predicate WellFormed(table: seq<Country>) {
    && DistinctKeys(CountryNames(table))
    && (forall i :: 0 <= i < |table| ==> DistinctKeys(RegionNames(table[i].regions)))
    && (forall i, j :: 0 <= i < |table| && 0 <= j < |table[i].regions| ==> table[i].regions[j].cities != [])
  }

  /** An unknown country has no states and no cities. */
  lemma UnknownCountry(table: seq<Country>, country: string, state: string)
    requires country !in CountryNames(table)
    ensures StateOptions(table, country) == [] && CityOptions(table, country, state) == []
  {
    forall i | 0 <= i < |table| ensures table[i].name != country {
      assert CountryNames(table)[i] == table[i].name;
    }
  }

  /** Looking up each listed country gives back its own states, and looking
      up each of those states gives back its own cities. */
  lemma LookupsReturnEntries(table: seq<Country>, i: nat, j: nat)
    requires WellFormed(table) && i < |table| && j < |table[i].regions|
    ensures StateOptions(table, table[i].name) == RegionNames(table[i].regions)
    ensures CityOptions(table, table[i].name, table[i].regions[j].name) == table[i].regions[j].cities
  {
    var k := FindKey(CountryNames(table), table[i].name).value;
    assert k == i;
    var m := FindKey(RegionNames(table[i].regions), table[i].regions[j].name).value;
    assert m == j;
  }

  /** On a well-formed table, cities are offered exactly when both keys are
      known: the country is listed and the state is listed under it. */
  lemma CitiesIffBothKnown(table: seq<Country>, country: string, state: string)
    requires WellFormed(table)
    ensures CityOptions(table, country, state) != [] <==>
              country in CountryNames(table) && state in StateOptions(table, country)
  {
    match FindKey(CountryNames(table), country)
    case None =>
      UnknownCountry(table, country, state);
    case Some(i) =>
      var names := RegionNames(table[i].regions);
      match FindKey(RegionNames(table[i].regions), state)
      case None =>
        assert state !in names;
      case Some(j) =>
        assert names[j] == state;
  }

  /** A state is offered for a country exactly when the country's entry lists it. */
  lemma StatesAreKeys(table: seq<Country>, country: string, state: string)
    ensures state in StateOptions(table, country) <==>
              exists i, j :: 0 <= i < |table| && table[i].name == country && FindKey(CountryNames(table), country) == Some(i)
                             && 0 <= j < |table[i].regions| && table[i].regions[j].name == state
  {
    match FindKey(CountryNames(table), country)
    case None =>
    case Some(i) =>
      var names := RegionNames(table[i].regions);
      if state in names {
        var j :| 0 <= j < |names| && names[j] == state;
        assert table[i].regions[j].name == state;
      }
  }
}
