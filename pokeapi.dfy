/** Pieces of the PokeAPI responses that the ability and move downloaders
    share: language-tagged entries and the generation I–V filter. */
module PokeApi {
  import opened Wrappers
  import opened Dicts

  /** `entry.get("language", {}).get("name")`: `None` when missing. */
  type Language = Option<string>

  /** An entry of `names`. */
  datatype NameEntry = NameEntry(language: Language, name: Option<string>)

  /** An entry of `effect_entries`; `shortEffect` is `None` when the key is
      missing and `Some(None)` when it is null. */
  datatype EffectEntry = EffectEntry(language: Language, shortEffect: Option<Option<string>>, effect: Option<string>)

  /** An entry of `flavor_text_entries`. */
  datatype FlavorEntry = FlavorEntry(language: Language, flavorText: Option<string>)

  /** `short_effect` as `entry.get("short_effect")` reads it: missing and null are both `None`. */
  function ShortEffect(e: EffectEntry): Option<string> {
    e.shortEffect.GetOr(None)
  }

  /** Each flavor text entry offers its `flavor_text` for its language. */
  function FlavorPairs(entries: seq<FlavorEntry>): (ps: seq<(Language, Option<string>)>)
    ensures |ps| == |entries|
    ensures forall i :: 0 <= i < |entries| ==> ps[i] == (entries[i].language, entries[i].flavorText)
  {
    seq(|entries|, i requires 0 <= i < |entries| => (entries[i].language, entries[i].flavorText))
  }

  /** A language is offered by the flavor texts iff some entry has it. */
  lemma FlavorPairsKeys(entries: seq<FlavorEntry>, lang: Language)
    ensures lang in KeysOf(FlavorPairs(entries)) <==> exists i :: 0 <= i < |entries| && entries[i].language == lang
  {
    var ps := FlavorPairs(entries);
    if exists i :: 0 <= i < |entries| && entries[i].language == lang {
      var i :| 0 <= i < |entries| && entries[i].language == lang;
      assert KeysOf(ps)[i] == lang;
    }
  }

  /** Each `names` entry offers its `name` for its language. */
  function NamePairs(names: seq<NameEntry>): (ps: seq<(Language, Option<string>)>)
    ensures |ps| == |names|
    ensures forall i :: 0 <= i < |names| ==> ps[i] == (names[i].language, names[i].name)
  {
    seq(|names|, i requires 0 <= i < |names| => (names[i].language, names[i].name))
  }

  /** A names table (`translations[language] = {"name": ...}` in a loop) has exactly
      one key per distinct language, holding the last name given for it. */
  lemma NameTranslationsAt(names: seq<NameEntry>, i: int)
    requires 0 <= i < |names|
    requires forall j :: i < j < |names| ==> names[j].language != names[i].language
    ensures Distinct(PutAll(Empty(), NamePairs(names)).keys)
    ensures forall lang :: lang in PutAll(Empty(), NamePairs(names)).vals <==>
      exists j :: 0 <= j < |names| && names[j].language == lang
    ensures names[i].language in PutAll(Empty(), NamePairs(names)).vals
    ensures PutAll(Empty(), NamePairs(names)).vals[names[i].language] == names[i].name
  {
    var ps := NamePairs(names);
    PutAllDomain(Empty(), ps);
    PutAllLastWins(Empty(), ps, i);
    forall lang | exists j :: 0 <= j < |names| && names[j].language == lang
      ensures lang in KeysOf(ps)
    {
      var j :| 0 <= j < |names| && names[j].language == lang;
      assert KeysOf(ps)[j] == lang;
    }
  }

  const GenerationNames: seq<string> :=
    ["generation-i", "generation-ii", "generation-iii", "generation-iv", "generation-v"]

  /** The lower-case Roman numeral of 1 to 5. */
  function Roman(n: int): string
    requires 1 <= n <= 5
  {
    if n == 1 then "i" else if n == 2 then "ii" else if n == 3 then "iii" else if n == 4 then "iv" else "v"
  }

  /** `is_ability_in_generations_1_to_5` and `is_move_in_generations_1_to_5`:
      the generation name (`""` when missing) is one of the five names. */
  predicate InGenerationsOneToFive(generation: Option<string>) {
    generation.GetOr("") in GenerationNames
  }

  /** The filter holds exactly for `generation-` followed by the numeral of 1 to 5;
      a missing generation fails it. */
  lemma InGenerationsOneToFiveIff(generation: Option<string>)
    ensures InGenerationsOneToFive(generation) <==>
      exists n :: 1 <= n <= 5 && generation == Some("generation-" + Roman(n))
    ensures generation.None? ==> !InGenerationsOneToFive(generation)
  {
    if InGenerationsOneToFive(generation) {
      var j :| 0 <= j < 5 && GenerationNames[j] == generation.GetOr("");
      assert GenerationNames[j] == "generation-" + Roman(j + 1);
      assert |GenerationNames[j]| > 0;
    }
    if exists n :: 1 <= n <= 5 && generation == Some("generation-" + Roman(n)) {
      var n :| 1 <= n <= 5 && generation == Some("generation-" + Roman(n));
      assert GenerationNames[n - 1] == "generation-" + Roman(n);
    }
  }
}
