/** generate_gender_rates.py: the ten gender-rate codes, each with the list of
    Pokémon that have it, filled in place. */
module GenderRates {
  import opened Wrappers
  import opened Dicts
  import opened DataSet

  /** A gender-rate entry; the percentages are exact rationals. */
  datatype GenderRate = GenderRate(name: string, femalePercentage: real, malePercentage: real, pokemonList: seq<Member>)

  type Mapping = Dict<int, GenderRate>

  const Codes: seq<int> := [-1, 0, 1, 2, 3, 4, 5, 6, 7, 8]

  /** `GENDER_RATE_MAPPING` before any Pokémon is added. */
  const GenderRateMapping: Mapping := Dict(Codes, map[
    -1 := GenderRate("Genderless", 0.0, 0.0, []),
    0 := GenderRate("0% Female, 100% Male", 0.0, 100.0, []),
    1 := GenderRate("12.5% Female, 87.5% Male", 12.5, 87.5, []),
    2 := GenderRate("25% Female, 75% Male", 25.0, 75.0, []),
    3 := GenderRate("37.5% Female, 62.5% Male", 37.5, 62.5, []),
    4 := GenderRate("50% Female, 50% Male", 50.0, 50.0, []),
    5 := GenderRate("62.5% Female, 37.5% Male", 62.5, 37.5, []),
    6 := GenderRate("75% Female, 25% Male", 75.0, 25.0, []),
    7 := GenderRate("87.5% Female, 12.5% Male", 87.5, 12.5, []),
    8 := GenderRate("100% Female, 0% Male", 100.0, 0.0, [])])

  /** The key order lists the ten codes, each once. */
  lemma MappingWellFormed()
    ensures WellFormed(GenderRateMapping)
    ensures forall k :: k in GenderRateMapping.keys <==> -1 <= k <= 8
  {
    assert forall i :: 0 <= i < |Codes| ==> Codes[i] == i - 1;
  }

  /** The ten codes, each once, every list empty. */
  lemma MappingShape(c: int)
    ensures WellFormed(GenderRateMapping)
    ensures c in GenderRateMapping.vals <==> -1 <= c <= 8
    ensures c in GenderRateMapping.vals ==> GenderRateMapping.vals[c].pokemonList == []
  {
    MappingWellFormed();
  }

  /** Code `c` of 0 to 8 means `c` eighths female, and the two percentages add up
      to 100; the genderless entry has 0 for both. */
  lemma MappingPercentages(c: int)
    requires -1 <= c <= 8
    ensures c in GenderRateMapping.vals
    ensures c >= 0 ==> GenderRateMapping.vals[c].femalePercentage == 12.5 * c as real
    ensures c >= 0 ==> GenderRateMapping.vals[c].femalePercentage + GenderRateMapping.vals[c].malePercentage == 100.0
    ensures c == -1 ==> GenderRateMapping.vals[c].femalePercentage == 0.0 == GenderRateMapping.vals[c].malePercentage
  {
    var m := GenderRateMapping.vals;
    if c == -1 { assert m[c] == GenderRate("Genderless", 0.0, 0.0, []); }
    else if c == 0 { assert m[c].femalePercentage == 0.0; }
    else if c == 1 { assert m[c].femalePercentage == 12.5; }
    else if c == 2 { assert m[c].femalePercentage == 25.0; }
    else if c == 3 { assert m[c].femalePercentage == 37.5; }
    else if c == 4 { assert m[c].femalePercentage == 50.0; }
    else if c == 5 { assert m[c].femalePercentage == 62.5; }
    else if c == 6 { assert m[c].femalePercentage == 75.0; }
    else if c == 7 { assert m[c].femalePercentage == 87.5; }
    else { assert m[c].femalePercentage == 100.0; }
  }

  // ---------------------------------------------------------------------------
  // update_gender_rates_with_pokemon
  // ---------------------------------------------------------------------------

  /** Each Pokémon's code paired with its member entry, in iteration order. */
  function CodedMembers(pokemon: PokemonData): (ps: seq<(Option<int>, Member)>)
    ensures |ps| == |pokemon.keys|
  {
    seq(|pokemon.keys|, i requires 0 <= i < |pokemon.keys| =>
      var name := pokemon.keys[i];
      if name in pokemon.vals then (pokemon.vals[name].genderRate, Member(name, pokemon.vals[name].id))
      else (None, Member(name, 0)))
  }

  /** One iteration: a recognised code gets the member appended. */
  function AddMember(d: Mapping, code: Option<int>, m: Member): (r: Mapping)
    ensures WellFormed(d) ==> WellFormed(r)
  {
    if code.Some? && code.value in d.vals then
      Put(d, code.value, d.vals[code.value].(pokemonList := d.vals[code.value].pokemonList + [m]))
    else d
  }

  function AddMembers(d: Mapping, ps: seq<(Option<int>, Member)>): (r: Mapping)
    ensures WellFormed(d) ==> WellFormed(r)
    decreases |ps|
  {
    if ps == [] then d
    else AddMember(AddMembers(d, ps[..|ps| - 1]), ps[|ps| - 1].0, ps[|ps| - 1].1)
  }

  /** `update_gender_rates_with_pokemon(pokemon_data, gender_rates)`. */
  method UpdateGenderRatesWithPokemon(pokemon: PokemonData, rates: Table<int, GenderRate>)
    requires rates.Valid()
    modifies rates
    ensures rates.Valid() && rates.View() == AddMembers(old(rates.View()), CodedMembers(pokemon))
  {
    ghost var start := rates.View();
    ghost var ps := CodedMembers(pokemon);
    var names := pokemon.keys;
    for i := 0 to |names|
      invariant rates.Valid() && rates.View() == AddMembers(start, ps[..i])
    {
      var name := names[i];
      var code := if name in pokemon.vals then pokemon.vals[name].genderRate else None;
      var id := if name in pokemon.vals then pokemon.vals[name].id else 0;
      if code.Some? && code.value in rates.vals {
        var entry := rates.vals[code.value];
        rates.Set(code.value, entry.(pokemonList := entry.pokemonList + [Member(name, id)]));
      }
      assert ps[..i + 1][..i] == ps[..i];
    }
    assert ps[..|names|] == ps;
  }

  // ---------------------------------------------------------------------------
  // What the update does
  // ---------------------------------------------------------------------------

  /** The codes stay the same, in the same order; names and percentages do not
      change; each list grows by the Pokémon with that code, in iteration order. */
  lemma {:induction false} AddMembersAt(d: Mapping, ps: seq<(Option<int>, Member)>, c: int)
    ensures AddMembers(d, ps).keys == d.keys
    ensures c in AddMembers(d, ps).vals <==> c in d.vals
    ensures c in d.vals ==>
      && AddMembers(d, ps).vals[c].name == d.vals[c].name
      && AddMembers(d, ps).vals[c].femalePercentage == d.vals[c].femalePercentage
      && AddMembers(d, ps).vals[c].malePercentage == d.vals[c].malePercentage
      && AddMembers(d, ps).vals[c].pokemonList == d.vals[c].pokemonList + ValuesAt(ps, Some(c))
    decreases |ps|
  {
    if ps != [] {
      AddMembersAt(d, ps[..|ps| - 1], c);
    }
  }

  /** A Pokémon with a missing or unrecognised code is in no list. */
  lemma UnrecognisedNowhere(d: Mapping, ps: seq<(Option<int>, Member)>, i: int, c: int)
    requires 0 <= i < |ps| && c in d.vals
    requires ps[i].0.None? || ps[i].0.value !in d.vals
    requires ps[i].1 !in d.vals[c].pokemonList
    requires forall j :: 0 <= j < |ps| && ps[j].1 == ps[i].1 ==> j == i
    ensures c in AddMembers(d, ps).vals
    ensures ps[i].1 !in AddMembers(d, ps).vals[c].pokemonList
  {
    AddMembersAt(d, ps, c);
    ValuesAtMember(ps, Some(c), ps[i].1);
  }

  /** Pokémon names are distinct keys, so a Pokémon is in at most one list. */
  lemma AtMostOneList(pokemon: PokemonData, c1: int, c2: int, m: Member)
    requires WellFormed(pokemon)
    requires m in ValuesAt(CodedMembers(pokemon), Some(c1)) && m in ValuesAt(CodedMembers(pokemon), Some(c2))
    ensures c1 == c2
  {
    var ps := CodedMembers(pokemon);
    ValuesAtMember(ps, Some(c1), m);
    ValuesAtMember(ps, Some(c2), m);
    var i :| 0 <= i < |ps| && ps[i] == (Some(c1), m);
    var j :| 0 <= j < |ps| && ps[j] == (Some(c2), m);
    assert pokemon.keys[i] == m.name == pokemon.keys[j];
  }

  function ListLen(g: GenderRate): nat {
    |g.pokemonList|
  }

  /** The number of pairs whose code is one of the mapping's. */
  function Recognised(d: Mapping, ps: seq<(Option<int>, Member)>): nat
    decreases |ps|
  {
    if ps == [] then 0
    else
      var code := ps[|ps| - 1].0;
      Recognised(d, ps[..|ps| - 1]) + if code.Some? && code.value in d.vals then 1 else 0
  }

  /** The lists grow by exactly the number of Pokémon with a recognised code. */
  lemma {:induction false} AddMembersTotal(d: Mapping, ps: seq<(Option<int>, Member)>)
    requires WellFormed(d)
    ensures Total(AddMembers(d, ps), ListLen) == Total(d, ListLen) + Recognised(d, ps)
    decreases |ps|
  {
    if ps != [] {
      var init := ps[..|ps| - 1];
      var g := AddMembers(d, init);
      var code := ps[|ps| - 1].0;
      AddMembersTotal(d, init);
      if code.Some? {
        AddMembersAt(d, init, code.value);
        if code.value in g.vals {
          PutTotal(g, ListLen, code.value,
            g.vals[code.value].(pokemonList := g.vals[code.value].pokemonList + [ps[|ps| - 1].1]));
        }
      }
    }
  }

  /** `main` without the file I/O: the mapping afterwards has the ten codes, and
      each list holds exactly the Pokémon with that code, in iteration order. */
  method GenderRatesOf(pokemon: PokemonData) returns (rates: Table<int, GenderRate>)
    ensures rates.Valid() && rates.View() == AddMembers(GenderRateMapping, CodedMembers(pokemon))
    ensures forall c :: c in rates.vals <==> -1 <= c <= 8
    ensures forall c :: -1 <= c <= 8 ==> rates.vals[c].pokemonList == ValuesAt(CodedMembers(pokemon), Some(c))
  {
    MappingShape(0);
    rates := new Table(GenderRateMapping);
    UpdateGenderRatesWithPokemon(pokemon, rates);
    forall c ensures c in rates.vals <==> -1 <= c <= 8 {
      MappingShape(c);
      AddMembersAt(GenderRateMapping, CodedMembers(pokemon), c);
    }
    forall c | -1 <= c <= 8 ensures rates.vals[c].pokemonList == ValuesAt(CodedMembers(pokemon), Some(c)) {
      MappingShape(c);
      AddMembersAt(GenderRateMapping, CodedMembers(pokemon), c);
    }
  }
}
