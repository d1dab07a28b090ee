/** download_PokeAPI_moves.py: the skill-table override of a move's numbers,
    its translations, and the selection of the moves to keep. */
module Moves {
  import opened Wrappers
  import opened Dicts
  import opened PokeApi

  /** A record of the game's skill table. */
  datatype Skill = Skill(id: int, baseAccuracy: Option<int>, basePp: Option<int>, basePower: Option<int>)

  /** A fetched move record; `typeName` and `damageClass` are the nested `name`
      fields, and a missing list is the empty sequence. */
  datatype RawMove = RawMove(
    id: Option<int>,
    name: Option<string>,
    generation: Option<string>,
    accuracy: Option<int>,
    effectChance: Option<int>,
    pp: Option<int>,
    priority: Option<int>,
    power: Option<int>,
    damageClass: Option<string>,
    typeName: Option<string>,
    effectEntries: seq<EffectEntry>,
    flavorTextEntries: seq<FlavorEntry>,
    names: seq<NameEntry>)

  /** The record `process_move_data` returns. */
  datatype Move = Move(
    id: Option<int>,
    name: Option<string>,
    accuracy: Option<int>,
    effectChance: Option<int>,
    pp: Option<int>,
    priority: Option<int>,
    power: Option<int>,
    damageClass: Option<string>,
    typeName: Option<string>,
    effect: Option<string>,
    nameTranslations: Dict<Language, Option<string>>,
    effectTranslations: Dict<Language, Option<string>>)

  // ---------------------------------------------------------------------------
  // get_skill_data_by_id
  // ---------------------------------------------------------------------------

  predicate IsFirstMatch(skills: seq<Skill>, id: Option<int>, i: int) {
    0 <= i < |skills| && Some(skills[i].id) == id
    && forall j :: 0 <= j < i ==> Some(skills[j].id) != id
  }

  /** The first skill whose id is the move's id, or `None` when no skill has it. */
  function FirstSkill(skills: seq<Skill>, id: Option<int>): (r: Option<Skill>)
    ensures r.None? <==> forall j :: 0 <= j < |skills| ==> Some(skills[j].id) != id
    ensures r.Some? ==> exists i :: IsFirstMatch(skills, id, i) && skills[i] == r.value
    decreases |skills|
  {
    if skills == [] then None
    else if Some(skills[0].id) == id then
      assert IsFirstMatch(skills, id, 0);
      Some(skills[0])
    else
      var r := FirstSkill(skills[1..], id);
      assert r.None? ==> forall j :: 0 <= j < |skills| ==> Some(skills[j].id) != id by {
        if r.None? {
          forall j | 0 <= j < |skills| ensures Some(skills[j].id) != id {
            if j > 0 { assert skills[j] == skills[1..][j - 1]; }
          }
        }
      }
      assert r.Some? ==> exists i :: IsFirstMatch(skills, id, i) && skills[i] == r.value by {
        if r.Some? {
          var i :| IsFirstMatch(skills[1..], id, i) && skills[1..][i] == r.value;
          assert IsFirstMatch(skills, id, i + 1);
        }
      }
      r
  }

  /** There is only one first match. */
  lemma FirstMatchUnique(skills: seq<Skill>, id: Option<int>, i: int, k: int)
    requires IsFirstMatch(skills, id, i) && IsFirstMatch(skills, id, k)
    ensures i == k
  {
  }

  /** `get_skill_data_by_id`: the linear search. */
  method GetSkillDataById(moveId: Option<int>, skills: seq<Skill>) returns (r: Option<Skill>)
    ensures r.None? <==> forall j :: 0 <= j < |skills| ==> Some(skills[j].id) != moveId
    ensures r.Some? ==> exists i :: IsFirstMatch(skills, moveId, i) && skills[i] == r.value
    ensures r == FirstSkill(skills, moveId)
  {
    for i := 0 to |skills|
      invariant forall j :: 0 <= j < i ==> Some(skills[j].id) != moveId
    {
      if Some(skills[i].id) == moveId {
        assert IsFirstMatch(skills, moveId, i);
        var f := FirstSkill(skills, moveId);
        ghost var k :| IsFirstMatch(skills, moveId, k) && skills[k] == f.value;
        FirstMatchUnique(skills, moveId, i, k);
        return Some(skills[i]);
      }
    }
    return None;
  }

  // ---------------------------------------------------------------------------
  // process_name_translations and process_effect_translations
  // ---------------------------------------------------------------------------

  /** `process_name_translations`. */
  method ProcessNameTranslations(names: seq<NameEntry>) returns (t: Dict<Language, Option<string>>)
    ensures WellFormed(t)
    ensures t == PutAll(Empty(), NamePairs(names))
  {
    t := Empty();
    ghost var ps := NamePairs(names);
    for i := 0 to |names|
      invariant t == PutAll(Empty(), ps[..i])
    {
      t := Put(t, names[i].language, names[i].name);
      PutAllStep(Empty(), ps, i);
    }
    assert ps[..|names|] == ps;
  }

  /** `effect_entry.get("short_effect", effect_entry.get("effect"))`: the short
      effect whenever the key is present, even when it is null. */
  function EntryEffect(e: EffectEntry): (r: Option<string>)
    ensures e.shortEffect.Some? ==> r == e.shortEffect.value
    ensures e.shortEffect.None? ==> r == e.effect
  {
    match e.shortEffect
    case Some(s) => s
    case None => e.effect
  }

  function MoveEffectPairs(entries: seq<EffectEntry>): (ps: seq<(Language, Option<string>)>)
    ensures |ps| == |entries|
    ensures forall i :: 0 <= i < |entries| ==> ps[i] == (entries[i].language, EntryEffect(entries[i]))
  {
    seq(|entries|, i requires 0 <= i < |entries| => (entries[i].language, EntryEffect(entries[i])))
  }

  /** Effect entries overwrite; flavor texts only fill languages still missing. */
  function MoveEffectTranslations(entries: seq<EffectEntry>, flavors: seq<FlavorEntry>): Dict<Language, Option<string>> {
    PutAllAbsent(PutAll(Empty(), MoveEffectPairs(entries)), FlavorPairs(flavors))
  }

  /** `process_effect_translations`. */
  method ProcessEffectTranslations(entries: seq<EffectEntry>, flavors: seq<FlavorEntry>)
    returns (t: Dict<Language, Option<string>>)
    ensures WellFormed(t)
    ensures t == MoveEffectTranslations(entries, flavors)
  {
    t := AddEffectEntries(entries);
    t := FillFromFlavorTexts(t, flavors);
  }

  /** The first loop of `process_effect_translations`: every effect entry
      written under its language. */
  method AddEffectEntries(entries: seq<EffectEntry>) returns (t: Dict<Language, Option<string>>)
    ensures t == PutAll(Empty(), MoveEffectPairs(entries))
  {
    t := Empty();
    ghost var ps := MoveEffectPairs(entries);
    for i := 0 to |entries|
      invariant t == PutAll(Empty(), ps[..i])
    {
      t := Put(t, entries[i].language, EntryEffect(entries[i]));
      PutAllStep(Empty(), ps, i);
    }
    assert ps[..|entries|] == ps;
  }

  /** The second loop: a flavor text only for a language still missing. */
  method FillFromFlavorTexts(d: Dict<Language, Option<string>>, flavors: seq<FlavorEntry>)
    returns (t: Dict<Language, Option<string>>)
    ensures t == PutAllAbsent(d, FlavorPairs(flavors))
  {
    t := d;
    ghost var fs := FlavorPairs(flavors);
    for i := 0 to |flavors|
      invariant t == PutAllAbsent(d, fs[..i])
    {
      if flavors[i].language !in t.vals {
        t := Put(t, flavors[i].language, flavors[i].flavorText);
      }
      assert fs[..i + 1][..i] == fs[..i];
    }
    assert fs[..|flavors|] == fs;
  }

  /** A language with an effect entry holds its last entry's effect. */
  lemma MoveEffectFromEntries(entries: seq<EffectEntry>, flavors: seq<FlavorEntry>, i: int)
    requires 0 <= i < |entries|
    requires forall j :: i < j < |entries| ==> entries[j].language != entries[i].language
    ensures entries[i].language in MoveEffectTranslations(entries, flavors).vals
    ensures MoveEffectTranslations(entries, flavors).vals[entries[i].language] == EntryEffect(entries[i])
  {
    PutAllLastWins(Empty(), MoveEffectPairs(entries), i);
    PutAllAbsentKeeps(PutAll(Empty(), MoveEffectPairs(entries)), FlavorPairs(flavors), entries[i].language);
  }

  /** A language without an effect entry holds its first flavor text, and the
      languages are those of the two lists together. */
  lemma MoveEffectFromFlavor(entries: seq<EffectEntry>, flavors: seq<FlavorEntry>, i: int)
    requires 0 <= i < |flavors|
    requires forall j :: 0 <= j < |entries| ==> entries[j].language != flavors[i].language
    requires forall j :: 0 <= j < i ==> flavors[j].language != flavors[i].language
    ensures flavors[i].language in MoveEffectTranslations(entries, flavors).vals
    ensures MoveEffectTranslations(entries, flavors).vals[flavors[i].language] == flavors[i].flavorText
  {
    var d1 := PutAll(Empty(), MoveEffectPairs(entries));
    PutAllDomain(Empty(), MoveEffectPairs(entries));
    assert flavors[i].language !in d1.vals;
    PutAllAbsentFirstWins(d1, FlavorPairs(flavors), i);
  }

  lemma MoveEffectDomain(entries: seq<EffectEntry>, flavors: seq<FlavorEntry>, lang: Language)
    ensures lang in MoveEffectTranslations(entries, flavors).vals <==>
      (exists j :: 0 <= j < |entries| && entries[j].language == lang)
      || (exists j :: 0 <= j < |flavors| && flavors[j].language == lang)
  {
    var ps := MoveEffectPairs(entries);
    var fs := FlavorPairs(flavors);
    PutAllDomain(Empty(), ps);
    PutAllAbsentDomain(PutAll(Empty(), ps), fs);
    if exists j :: 0 <= j < |entries| && entries[j].language == lang {
      var j :| 0 <= j < |entries| && entries[j].language == lang;
      assert KeysOf(ps)[j] == lang;
    }
    if exists j :: 0 <= j < |flavors| && flavors[j].language == lang {
      var j :| 0 <= j < |flavors| && flavors[j].language == lang;
      assert KeysOf(fs)[j] == lang;
    }
  }

  // ---------------------------------------------------------------------------
  // process_move_data
  // ---------------------------------------------------------------------------

  /** `process_move_data`: `None` for a shadow-type move; a skill with the move's
      id overrides accuracy, pp and power. */
  function ProcessMoveData(raw: RawMove, skills: seq<Skill>): (r: Option<Move>)
    ensures r.None? <==> raw.typeName == Some("shadow")
    ensures r.Some? ==>
      && r.value.id == raw.id && r.value.name == raw.name
      && r.value.effectChance == raw.effectChance && r.value.priority == raw.priority
      && r.value.damageClass == raw.damageClass && r.value.typeName == raw.typeName
    ensures r.Some? && (forall j :: 0 <= j < |skills| ==> Some(skills[j].id) != raw.id) ==>
      r.value.accuracy == raw.accuracy && r.value.pp == raw.pp && r.value.power == raw.power
    ensures r.Some? ==> forall i :: IsFirstMatch(skills, raw.id, i) ==>
      && r.value.accuracy == skills[i].baseAccuracy
      && r.value.pp == skills[i].basePp
      && r.value.power == skills[i].basePower
    ensures r.Some? ==> r.value.effect == if raw.effectEntries == [] then None else ShortEffect(raw.effectEntries[0])
  {
    if raw.typeName == Some("shadow") then None
    else
      var skill := FirstSkill(skills, raw.id);
      assert forall i :: IsFirstMatch(skills, raw.id, i) ==> skill == Some(skills[i]) by {
        forall i | IsFirstMatch(skills, raw.id, i) ensures skill == Some(skills[i]) {
          var k :| IsFirstMatch(skills, raw.id, k) && skills[k] == skill.value;
          FirstMatchUnique(skills, raw.id, i, k);
        }
      }
      Some(Move(
        raw.id,
        raw.name,
        if skill.Some? then skill.value.baseAccuracy else raw.accuracy,
        raw.effectChance,
        if skill.Some? then skill.value.basePp else raw.pp,
        raw.priority,
        if skill.Some? then skill.value.basePower else raw.power,
        raw.damageClass,
        raw.typeName,
        if raw.effectEntries != [] then ShortEffect(raw.effectEntries[0]) else None,
        PutAll(Empty(), NamePairs(raw.names)),
        MoveEffectTranslations(raw.effectEntries, raw.flavorTextEntries)))
  }

  // ---------------------------------------------------------------------------
  // Selection in main
  // ---------------------------------------------------------------------------

  /** Whether `main` stores the move fetched under `name`. */
  predicate Selected(name: string, fetched: map<string, RawMove>) {
    name in fetched && InGenerationsOneToFive(fetched[name].generation) && fetched[name].typeName != Some("shadow")
  }

  function Candidates(names: seq<string>, fetched: map<string, RawMove>, skills: seq<Skill>)
    : (cs: seq<Option<(Option<string>, Move)>>)
    ensures |cs| == |names|
    ensures forall i :: 0 <= i < |names| ==>
      cs[i] == if Selected(names[i], fetched)
               then Some((fetched[names[i]].name, ProcessMoveData(fetched[names[i]], skills).value))
               else None
  {
    seq(|names|, i requires 0 <= i < |names| =>
      if Selected(names[i], fetched)
      then Some((fetched[names[i]].name, ProcessMoveData(fetched[names[i]], skills).value))
      else None)
  }

  /** The loop of `main`, the fetches given as a map from name to record. */
  method CollectMoves(names: seq<string>, fetched: map<string, RawMove>, skills: seq<Skill>)
    returns (d: Dict<Option<string>, Move>)
    ensures d == PutAll(Empty(), Somes(Candidates(names, fetched, skills)))
  {
    d := Empty();
    ghost var cs := Candidates(names, fetched, skills);
    for i := 0 to |names|
      invariant d == PutAll(Empty(), Somes(cs[..i]))
    {
      var name := names[i];
      if name in fetched && InGenerationsOneToFive(fetched[name].generation) {
        var processed := ProcessMoveData(fetched[name], skills);
        if processed.Some? {
          d := Put(d, processed.value.name, processed.value);
        }
      }
      PutAllSomesStep(Empty(), cs, i);
    }
    assert cs[..|names|] == cs;
  }

  /** A move is stored under its own name iff some listed name was fetched, is of
      generations I–V and not shadow-type; it holds the record of the last such name. */
  lemma SelectedMoves(names: seq<string>, fetched: map<string, RawMove>, skills: seq<Skill>, k: Option<string>)
    ensures var d := PutAll(Empty(), Somes(Candidates(names, fetched, skills)));
      && (k in d.vals <==> exists i :: 0 <= i < |names| && Selected(names[i], fetched) && fetched[names[i]].name == k)
      && forall i ::
           (0 <= i < |names| && Selected(names[i], fetched) && fetched[names[i]].name == k
            && (forall j :: i < j < |names| && Selected(names[j], fetched) ==> fetched[names[j]].name != k))
           ==> k in d.vals && d.vals[k] == ProcessMoveData(fetched[names[i]], skills).value
  {
    var cs := Candidates(names, fetched, skills);
    PutAllSomesDomain(Empty(), cs, k);
    forall i | 0 <= i < |names| && Selected(names[i], fetched) && fetched[names[i]].name == k
        && (forall j :: i < j < |names| && Selected(names[j], fetched) ==> fetched[names[j]].name != k)
      ensures k in PutAll(Empty(), Somes(cs)).vals
      ensures PutAll(Empty(), Somes(cs)).vals[k] == ProcessMoveData(fetched[names[i]], skills).value
    {
      PutAllSomesLastWins(Empty(), cs, i);
    }
  }
}
