/** generate_types_data.py: for each Pokémon type, the Pokémon and the moves
    of that type and the type's name translations. */
module TypesData {
  import opened Wrappers
  import opened Dicts
  import opened DataSet

  /** Language → translated name of one type. */
  type NameTable = Dict<string, Option<string>>

  /** The fields of a `moves-data.json` record the index uses. */
  datatype MoveRecord = MoveRecord(typeName: Option<string>, id: int)

  type MoveData = Dict<string, MoveRecord>

  datatype TypeEntry = TypeEntry(pokemon: seq<Member>, moves: seq<Member>, nameTranslations: NameTable)

  type TypesIndex = Dict<string, TypeEntry>

  /** `translations.get(t, {})` */
  function TranslationsOf(translations: map<string, NameTable>, t: string): NameTable {
    if t in translations then translations[t] else Empty()
  }

  // ---------------------------------------------------------------------------
  // The first loop: Pokémon by type
  // ---------------------------------------------------------------------------

  /** One Pokémon's (type, member) pairs, in the order of its `types`. */
  function TypedMember(name: string, p: Pokemon): (ps: seq<(string, Member)>)
    ensures |ps| == |p.types|
    ensures forall j :: 0 <= j < |p.types| ==> ps[j] == (p.types[j], Member(name, p.id))
  {
    seq(|p.types|, j requires 0 <= j < |p.types| => (p.types[j], Member(name, p.id)))
  }

  /** Every (type, member) pair, Pokémon by Pokémon in iteration order. */
  function TypedMembers(ks: seq<string>, vals: map<string, Pokemon>): seq<(string, Member)>
    decreases |ks|
  {
    if ks == [] then []
    else
      var k := ks[|ks| - 1];
      TypedMembers(ks[..|ks| - 1], vals) + if k in vals then TypedMember(k, vals[k]) else []
  }

  /** One iteration of the inner loop: the bucket is created when missing, then the member appended. */
  function AddPokemon(d: TypesIndex, t: string, m: Member, translations: map<string, NameTable>): (r: TypesIndex)
    ensures WellFormed(d) ==> WellFormed(r)
  {
    var e := if t in d.vals then d.vals[t] else TypeEntry([], [], TranslationsOf(translations, t));
    Put(d, t, e.(pokemon := e.pokemon + [m]))
  }

  function AddAllPokemon(d: TypesIndex, ps: seq<(string, Member)>, translations: map<string, NameTable>): (r: TypesIndex)
    ensures WellFormed(d) ==> WellFormed(r)
    decreases |ps|
  {
    if ps == [] then d
    else AddPokemon(AddAllPokemon(d, ps[..|ps| - 1], translations), ps[|ps| - 1].0, ps[|ps| - 1].1, translations)
  }

  /** One more pair is one more `AddPokemon`. */
  lemma AddAllPokemonStep(d: TypesIndex, ps: seq<(string, Member)>, j: int, translations: map<string, NameTable>)
    requires 0 <= j < |ps|
    ensures AddAllPokemon(d, ps[..j + 1], translations) == AddPokemon(AddAllPokemon(d, ps[..j], translations), ps[j].0, ps[j].1, translations)
  {
    var prefix := ps[..j + 1];
    assert prefix[..|prefix| - 1] == ps[..j];
    assert prefix[|prefix| - 1] == ps[j];
  }

  // ---------------------------------------------------------------------------
  // The second loop: moves into existing buckets
  // ---------------------------------------------------------------------------

  function TypedMoves(moves: MoveData): (ps: seq<(Option<string>, Member)>)
    ensures |ps| == |moves.keys|
  {
    seq(|moves.keys|, i requires 0 <= i < |moves.keys| =>
      var name := moves.keys[i];
      if name in moves.vals then (moves.vals[name].typeName, Member(name, moves.vals[name].id))
      else (None, Member(name, 0)))
  }

  /** A move with a truthy type that already has a bucket is appended to it. */
  function AddMove(d: TypesIndex, t: Option<string>, m: Member): (r: TypesIndex)
    ensures WellFormed(d) ==> WellFormed(r)
  {
    if Truthy(t) && t.value in d.vals then Put(d, t.value, d.vals[t.value].(moves := d.vals[t.value].moves + [m]))
    else d
  }

  function AddAllMoves(d: TypesIndex, ps: seq<(Option<string>, Member)>): (r: TypesIndex)
    ensures WellFormed(d) ==> WellFormed(r)
    decreases |ps|
  {
    if ps == [] then d
    else AddMove(AddAllMoves(d, ps[..|ps| - 1]), ps[|ps| - 1].0, ps[|ps| - 1].1)
  }

  /** The index `generate_types_data` returns. */
  function TypesOf(pokemon: PokemonData, moves: MoveData, translations: map<string, NameTable>): TypesIndex {
    AddAllMoves(AddAllPokemon(Empty(), TypedMembers(pokemon.keys, pokemon.vals), translations), TypedMoves(moves))
  }

  // ---------------------------------------------------------------------------
  // generate_types_data
  // ---------------------------------------------------------------------------

  /** The inner loop over one Pokémon's types. */
  method AddTypes(d0: TypesIndex, name: string, p: Pokemon, translations: map<string, NameTable>) returns (d: TypesIndex)
    ensures d == AddAllPokemon(d0, TypedMember(name, p), translations)
  {
    d := d0;
    ghost var ps := TypedMember(name, p);
    for j := 0 to |p.types|
      invariant d == AddAllPokemon(d0, ps[..j], translations)
    {
      var t := p.types[j];
      d := AddType(d, t, Member(name, p.id), translations);
      AddAllPokemonStep(d0, ps, j, translations);
    }
    assert ps[..|p.types|] == ps;
  }

  /** One type of one Pokémon: the bucket is created when missing, then the
      Pokémon appended to it. */
  method AddType(d0: TypesIndex, t: string, m: Member, translations: map<string, NameTable>) returns (d: TypesIndex)
    ensures d == AddPokemon(d0, t, m, translations)
  {
    d := d0;
    if t !in d.vals {
      d := Put(d, t, TypeEntry([], [], TranslationsOf(translations, t)));
    }
    ghost var e := if t in d0.vals then d0.vals[t] else TypeEntry([], [], TranslationsOf(translations, t));
    assert d.keys == (if t in d0.vals then d0.keys else d0.keys + [t]);
    assert d.vals[t] == e;
    d := Put(d, t, d.vals[t].(pokemon := d.vals[t].pokemon + [m]));
    assert d.vals == d0.vals[t := e.(pokemon := e.pokemon + [m])];
  }

  lemma {:induction false} AddAllPokemonAppend(d: TypesIndex, xs: seq<(string, Member)>, ys: seq<(string, Member)>,
                                               translations: map<string, NameTable>)
    ensures AddAllPokemon(d, xs + ys, translations) == AddAllPokemon(AddAllPokemon(d, xs, translations), ys, translations)
    decreases |ys|
  {
    if ys == [] {
      assert xs + ys == xs;
    } else {
      var all := xs + ys;
      assert all[..|all| - 1] == xs + ys[..|ys| - 1];
      AddAllPokemonAppend(d, xs, ys[..|ys| - 1], translations);
    }
  }

  lemma PokemonStep(pokemon: PokemonData, i: int, translations: map<string, NameTable>)
    requires 0 <= i < |pokemon.keys|
    ensures var ks := pokemon.keys;
      var more := if ks[i] in pokemon.vals then TypedMember(ks[i], pokemon.vals[ks[i]]) else [];
      AddAllPokemon(Empty(), TypedMembers(ks[..i + 1], pokemon.vals), translations)
        == AddAllPokemon(AddAllPokemon(Empty(), TypedMembers(ks[..i], pokemon.vals), translations), more, translations)
  {
    var ks := pokemon.keys;
    assert ks[..i + 1][..i] == ks[..i];
    var more := if ks[i] in pokemon.vals then TypedMember(ks[i], pokemon.vals[ks[i]]) else [];
    AddAllPokemonAppend(Empty(), TypedMembers(ks[..i], pokemon.vals), more, translations);
  }

  /** `generate_types_data(pokemon_data, moves_data, translations)`. */
  method GenerateTypesData(pokemon: PokemonData, moves: MoveData, translations: map<string, NameTable>)
    returns (d: TypesIndex)
    ensures d == TypesOf(pokemon, moves, translations)
  {
    d := Empty();
    var ks := pokemon.keys;
    for i := 0 to |ks|
      invariant d == AddAllPokemon(Empty(), TypedMembers(ks[..i], pokemon.vals), translations)
    {
      if ks[i] in pokemon.vals {
        d := AddTypes(d, ks[i], pokemon.vals[ks[i]], translations);
      }
      PokemonStep(pokemon, i, translations);
    }
    assert ks[..|ks|] == ks;

    ghost var d1 := d;
    ghost var ms := TypedMoves(moves);
    var names := moves.keys;
    for i := 0 to |names|
      invariant d == AddAllMoves(d1, ms[..i])
    {
      var name := names[i];
      if name in moves.vals {
        var moveType := moves.vals[name].typeName;
        if Truthy(moveType) && moveType.value in d.vals {
          d := Put(d, moveType.value, d.vals[moveType.value].(moves := d.vals[moveType.value].moves + [Member(name, moves.vals[name].id)]));
        }
      }
      assert ms[..i + 1][..i] == ms[..i];
    }
    assert ms[..|names|] == ms;
  }

  // ---------------------------------------------------------------------------
  // What the index holds
  // ---------------------------------------------------------------------------

  /** After the first loop a type has a bucket iff some pair names it; the
      bucket holds the members paired with it, in order, no moves yet, and the
      type's translations (or an empty table). */
  lemma {:induction false} AddAllPokemonAt(ps: seq<(string, Member)>, translations: map<string, NameTable>, t: string)
    ensures t in AddAllPokemon(Empty(), ps, translations).vals <==> t in KeysOf(ps)
    ensures t in KeysOf(ps) ==>
      AddAllPokemon(Empty(), ps, translations).vals[t] == TypeEntry(ValuesAt(ps, t), [], TranslationsOf(translations, t))
    ensures t !in KeysOf(ps) ==> ValuesAt(ps, t) == []
    decreases |ps|
  {
    if ps != [] {
      KeysOfSnoc(ps);
      AddAllPokemonAt(ps[..|ps| - 1], translations, t);
    }
  }

  /** The second loop keeps the types, their Pokémon and translations; a type's
      moves are those whose `type` is that type, in order; a move whose type is
      missing, empty or has no bucket is dropped. */
  lemma {:induction false} AddAllMovesAt(d: TypesIndex, ms: seq<(Option<string>, Member)>, t: string)
    ensures AddAllMoves(d, ms).keys == d.keys
    ensures t in AddAllMoves(d, ms).vals <==> t in d.vals
    ensures t in d.vals ==>
      && AddAllMoves(d, ms).vals[t].pokemon == d.vals[t].pokemon
      && AddAllMoves(d, ms).vals[t].nameTranslations == d.vals[t].nameTranslations
      && AddAllMoves(d, ms).vals[t].moves == d.vals[t].moves + (if t == "" then [] else ValuesAt(ms, Some(t)))
    decreases |ms|
  {
    if ms != [] {
      AddAllMovesAt(d, ms[..|ms| - 1], t);
    }
  }

  lemma {:induction false} TypedMembersKeys(ks: seq<string>, vals: map<string, Pokemon>, t: string)
    ensures t in KeysOf(TypedMembers(ks, vals)) <==>
      exists i :: 0 <= i < |ks| && ks[i] in vals && t in vals[ks[i]].types
    decreases |ks|
  {
    if ks != [] {
      var init := ks[..|ks| - 1];
      var k := ks[|ks| - 1];
      var more := if k in vals then TypedMember(k, vals[k]) else [];
      TypedMembersKeys(init, vals, t);
      assert KeysOf(TypedMembers(ks, vals)) == KeysOf(TypedMembers(init, vals)) + KeysOf(more);
      if k in vals && t in vals[k].types {
        var j :| 0 <= j < |vals[k].types| && vals[k].types[j] == t;
        assert KeysOf(more)[j] == t;
      }
      if t in KeysOf(more) {
        var j :| 0 <= j < |more| && KeysOf(more)[j] == t;
        assert vals[k].types[j] == t;
      }
      if exists i :: 0 <= i < |ks| && ks[i] in vals && t in vals[ks[i]].types {
        var i :| 0 <= i < |ks| && ks[i] in vals && t in vals[ks[i]].types;
        if i < |ks| - 1 {
          assert init[i] == ks[i];
        }
      }
    }
  }

  /** A type is a key iff some Pokémon lists it; its `pokemon` are the Pokémon
      listing it, in iteration order (twice for a Pokémon listing it twice);
      its `moves` are the moves of that type; its translations are the fetched
      ones or empty. */
  lemma TypesOfAt(pokemon: PokemonData, moves: MoveData, translations: map<string, NameTable>, t: string)
    ensures var r := TypesOf(pokemon, moves, translations);
      var ps := TypedMembers(pokemon.keys, pokemon.vals);
      && (t in r.vals <==> exists i :: 0 <= i < |pokemon.keys| && pokemon.keys[i] in pokemon.vals
                                       && t in pokemon.vals[pokemon.keys[i]].types)
      && (t in r.vals ==>
            && r.vals[t].pokemon == ValuesAt(ps, t)
            && |r.vals[t].pokemon| == multiset(KeysOf(ps))[t]
            && r.vals[t].moves == (if t == "" then [] else ValuesAt(TypedMoves(moves), Some(t)))
            && r.vals[t].nameTranslations == TranslationsOf(translations, t))
  {
    var ps := TypedMembers(pokemon.keys, pokemon.vals);
    var d1 := AddAllPokemon(Empty(), ps, translations);
    var r := AddAllMoves(d1, TypedMoves(moves));
    assert r == TypesOf(pokemon, moves, translations);
    TypedMembersKeys(pokemon.keys, pokemon.vals, t);
    AddAllPokemonAt(ps, translations, t);
    AddAllMovesAt(d1, TypedMoves(moves), t);
    assert t in r.vals <==> t in KeysOf(ps);
    if t in r.vals {
      ValuesAtCount(ps, t);
      assert r.vals[t].pokemon == ValuesAt(ps, t);
    }
  }

  function PokemonCount(e: TypeEntry): nat {
    |e.pokemon|
  }

  function TypeCount(p: Pokemon): nat {
    |p.types|
  }

  lemma {:induction false} AddAllPokemonTotal(d: TypesIndex, ps: seq<(string, Member)>, translations: map<string, NameTable>)
    requires WellFormed(d)
    ensures Total(AddAllPokemon(d, ps, translations), PokemonCount) == Total(d, PokemonCount) + |ps|
    decreases |ps|
  {
    if ps != [] {
      var init := ps[..|ps| - 1];
      var g := AddAllPokemon(d, init, translations);
      var t := ps[|ps| - 1].0;
      AddAllPokemonTotal(d, init, translations);
      var e := if t in g.vals then g.vals[t] else TypeEntry([], [], TranslationsOf(translations, t));
      PutTotal(g, PokemonCount, t, e.(pokemon := e.pokemon + [ps[|ps| - 1].1]));
    }
  }

  lemma {:induction false} AddAllMovesTotal(d: TypesIndex, ms: seq<(Option<string>, Member)>)
    requires WellFormed(d)
    ensures Total(AddAllMoves(d, ms), PokemonCount) == Total(d, PokemonCount)
    decreases |ms|
  {
    if ms != [] {
      var init := ms[..|ms| - 1];
      var g := AddAllMoves(d, init);
      var t := ms[|ms| - 1].0;
      AddAllMovesTotal(d, init);
      if Truthy(t) && t.value in g.vals {
        PutTotal(g, PokemonCount, t.value, g.vals[t.value].(moves := g.vals[t.value].moves + [ms[|ms| - 1].1]));
      }
    }
  }

  lemma {:induction false} TypedMembersCount(ks: seq<string>, vals: map<string, Pokemon>)
    ensures |TypedMembers(ks, vals)| == SumOver(ks, vals, TypeCount)
    decreases |ks|
  {
    if ks != [] {
      TypedMembersCount(ks[..|ks| - 1], vals);
    }
  }

  /** The `pokemon` lists together are as long as all the `types` lists together. */
  lemma TypesOfTotal(pokemon: PokemonData, moves: MoveData, translations: map<string, NameTable>)
    ensures Total(TypesOf(pokemon, moves, translations), PokemonCount) == Total(pokemon, TypeCount)
  {
    var ps := TypedMembers(pokemon.keys, pokemon.vals);
    AddAllPokemonTotal(Empty(), ps, translations);
    AddAllMovesTotal(AddAllPokemon(Empty(), ps, translations), TypedMoves(moves));
    TypedMembersCount(pokemon.keys, pokemon.vals);
  }
}
