/** Records of the generated Pokémon data set (`pokemon-data.json`) that the
    types and gender-rate indexes read. */
module DataSet {
  import opened Wrappers
  import opened Dicts

  /** The fields of a Pokémon record the indexes use: a missing `types` list is
      the empty sequence, a missing `gender_rate` is `None`. */
  datatype Pokemon = Pokemon(id: int, types: seq<string>, genderRate: Option<int>)

  /** The data set: Pokémon name → record, in file order. */
  type PokemonData = Dict<string, Pokemon>

  /** An index entry `{"name": ..., "id": ...}`. */
  datatype Member = Member(name: string, id: int)

}
