/** Records of the local game dump (`monsters.json`, `items.json`) and the
    species-name normalisation that generate_locations.py and
    generate_held_items.py both apply to monster names. */
module Dump {
  import opened Wrappers
  import opened Text

  /** One encounter entry of a monster: its `location` string and its other
      fields, kept verbatim. */
  datatype LocationEntry = LocationEntry(location: string, details: map<string, string>)

  /** A held-item reference of a monster (`{"id": .., "name": ..}`). */
  datatype HeldRef = HeldRef(id: int, name: string)

  /** A `monsters.json` record; a missing `locations` or `held_items` key is `None`. */
  datatype Monster = Monster(
    name: string,
    id: int,
    locations: Option<seq<LocationEntry>>,
    heldItems: Option<seq<HeldRef>>)

  /** An `items.json` record. */
  datatype DumpItem = DumpItem(
    id: Option<int>,
    name: string,
    desc: Option<string>,
    iconId: Option<int>,
    nameStringId: int,
    descStringId: int)

  /** Monster names of the dump that differ from the species slugs of the data set. */
  const NameChangeLookup: map<string, string> := map[
    "nidoran♀" := "nidoran-f",
    "nidoran♂" := "nidoran-m",
    "farfetch'd" := "farfetchd",
    "mr. mime" := "mr-mime",
    "mime jr." := "mime-jr"
  ]

  /** The species key of a monster: its lower-cased name, renamed through the lookup table. */
  function SpeciesKey(name: string): string {
    var lowered := Lower(name);
    if lowered in NameChangeLookup then NameChangeLookup[lowered] else lowered
  }

  /** The species keys of the monsters, in order. */
  function SpeciesKeys(monsters: seq<Monster>): (ks: seq<string>)
    ensures |ks| == |monsters|
    ensures forall i :: 0 <= i < |monsters| ==> ks[i] == SpeciesKey(monsters[i].name)
  {
    seq(|monsters|, i requires 0 <= i < |monsters| => SpeciesKey(monsters[i].name))
  }

  /** A species key is already normalised: normalising it again changes nothing. */
  lemma SpeciesKeyIdempotent(name: string)
    ensures SpeciesKey(SpeciesKey(name)) == SpeciesKey(name)
  {
    var lowered := Lower(name);
    LowerIdempotent(name);
    if lowered in NameChangeLookup {
      var renamed := NameChangeLookup[lowered];
      assert Lower(renamed) == renamed;
      assert renamed !in NameChangeLookup;
    }
  }
}
