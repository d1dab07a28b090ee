/** download_PokeAPI_natures.py: each nature projected to its names and
    battle-style preferences, keyed by name. */
module Natures {
  import opened Wrappers
  import opened Dicts

  /** A PokeAPI named resource `{"name": …, "url": …}`; either key may be
      missing. As an object it is truthy iff it has a key. */
  datatype NamedRef = NamedRef(name: Option<string>, url: Option<string>)

  predicate NonEmpty(r: NamedRef) {
    r.name.Some? || r.url.Some?
  }

  /** A `move_battle_style_preferences` element; a missing field is `None`. */
  datatype RawPreference = RawPreference(moveBattleStyle: Option<NamedRef>, lowHpPreference: Option<int>, highHpPreference: Option<int>)

  /** A `nature` response; a missing or null field is `None`, a missing list empty. */
  datatype RawNature = RawNature(
    id: Option<int>,
    name: Option<string>,
    increasedStat: Option<NamedRef>,
    decreasedStat: Option<NamedRef>,
    likesFlavor: Option<NamedRef>,
    hatesFlavor: Option<NamedRef>,
    preferences: seq<RawPreference>)

  datatype Preference = Preference(moveBattleStyle: Option<string>, lowHpPreference: Option<int>, highHpPreference: Option<int>)

  /** A `natures-data.json` record. */
  datatype Nature = Nature(
    id: Option<int>,
    name: Option<string>,
    increasedStat: Option<string>,
    decreasedStat: Option<string>,
    likesFlavor: Option<string>,
    hatesFlavor: Option<string>,
    preferences: seq<Preference>)

  /** `raw.get(f, {}).get("name") if raw.get(f) else None` */
  function RefName(r: Option<NamedRef>): (name: Option<string>)
    ensures name.Some? ==> r.Some? && r.value.name == name
    ensures r.Some? && r.value.name.Some? ==> name == r.value.name
    ensures name.None? <==> r.None? || r.value.name.None?
  {
    if r.Some? && NonEmpty(r.value) then r.value.name else None
  }

  /** `{"move_battle_style": …, "low_hp_preference": …, "high_hp_preference": …}` */
  function ProjectPreference(p: RawPreference): (q: Preference)
    ensures q.lowHpPreference == p.lowHpPreference && q.highHpPreference == p.highHpPreference
    ensures q.moveBattleStyle == if p.moveBattleStyle.Some? then p.moveBattleStyle.value.name else None
  {
    Preference(if p.moveBattleStyle.Some? then p.moveBattleStyle.value.name else None, p.lowHpPreference, p.highHpPreference)
  }

  /** `process_nature_data(raw_data)` */
  function ProcessNatureData(raw: RawNature): (n: Nature)
    ensures n.id == raw.id && n.name == raw.name
    ensures n.increasedStat == RefName(raw.increasedStat) && n.decreasedStat == RefName(raw.decreasedStat)
    ensures n.likesFlavor == RefName(raw.likesFlavor) && n.hatesFlavor == RefName(raw.hatesFlavor)
    ensures |n.preferences| == |raw.preferences|
    ensures forall i :: 0 <= i < |raw.preferences| ==> n.preferences[i] == ProjectPreference(raw.preferences[i])
  {
    Nature(raw.id, raw.name,
      RefName(raw.increasedStat), RefName(raw.decreasedStat), RefName(raw.likesFlavor), RefName(raw.hatesFlavor),
      seq(|raw.preferences|, i requires 0 <= i < |raw.preferences| => ProjectPreference(raw.preferences[i])))
  }

  // ---------------------------------------------------------------------------
  // main
  // ---------------------------------------------------------------------------

  /** What each listed name contributes: every fetched nature, under its name. */
  function Candidates(names: seq<string>, fetched: map<string, RawNature>): (cs: seq<Option<(Option<string>, Nature)>>)
    ensures |cs| == |names|
    ensures forall i :: 0 <= i < |names| ==>
      (cs[i].Some? <==> names[i] in fetched)
      && (cs[i].Some? ==> cs[i].value == (fetched[names[i]].name, ProcessNatureData(fetched[names[i]])))
  {
    seq(|names|, i requires 0 <= i < |names| =>
      if names[i] in fetched then Some((ProcessNatureData(fetched[names[i]]).name, ProcessNatureData(fetched[names[i]])))
      else None)
  }

  /** The loop of `main`, the fetches given as a map from name to response. */
  method CollectNatures(names: seq<string>, fetched: map<string, RawNature>) returns (d: Dict<Option<string>, Nature>)
    ensures d == PutAll(Empty(), Somes(Candidates(names, fetched)))
  {
    d := Empty();
    ghost var cs := Candidates(names, fetched);
    for i := 0 to |names|
      invariant d == PutAll(Empty(), Somes(cs[..i]))
    {
      var name := names[i];
      if name in fetched {
        var processed := ProcessNatureData(fetched[name]);
        d := Put(d, processed.name, processed);
      }
      PutAllSomesStep(Empty(), cs, i);
    }
    assert cs[..|names|] == cs;
  }

  /** No fetched nature is filtered out: a name is a key iff some fetched
      nature has it, and holds the projection of the last such nature. */
  lemma CollectedNatures(names: seq<string>, fetched: map<string, RawNature>, k: Option<string>)
    ensures var d := PutAll(Empty(), Somes(Candidates(names, fetched)));
      && (k in d.vals <==> exists i :: 0 <= i < |names| && names[i] in fetched && fetched[names[i]].name == k)
      && forall i ::
           (0 <= i < |names| && names[i] in fetched && fetched[names[i]].name == k
            && (forall j :: i < j < |names| && names[j] in fetched ==> fetched[names[j]].name != k))
           ==> k in d.vals && d.vals[k] == ProcessNatureData(fetched[names[i]])
  {
    var cs := Candidates(names, fetched);
    PutAllSomesDomain(Empty(), cs, k);
    forall i | 0 <= i < |names| && names[i] in fetched && fetched[names[i]].name == k
        && (forall j :: i < j < |names| && names[j] in fetched ==> fetched[names[j]].name != k)
      ensures k in PutAll(Empty(), Somes(cs)).vals
      ensures PutAll(Empty(), Somes(cs)).vals[k] == ProcessNatureData(fetched[names[i]])
    {
      PutAllSomesLastWins(Empty(), cs, i);
    }
  }
}
