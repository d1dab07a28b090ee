/** download_PokeAPI_abilities.py: the per-language effect texts merged from
    three tiers, and the selection of the abilities to keep. */
module Abilities {
  import opened Wrappers
  import opened Dicts
  import opened PokeApi

  /** Abilities kept whatever their generation. */
  const IncludedAbilities: seq<string> :=
    ["competitive", "neutralizing-gas", "protean", "sharpness", "slush-rush", "wind-rider"]

  /** Abilities skipped before fetching; empty in this version. */
  const ExcludedAbilities: seq<string> := []

  /** A fetched ability record. `isMainSeries` is false when the field is
      falsy or missing; a missing list is the empty sequence. */
  datatype RawAbility = RawAbility(
    id: Option<int>,
    name: Option<string>,
    isMainSeries: bool,
    generation: Option<string>,
    effectEntries: seq<EffectEntry>,
    effectChanges: seq<seq<EffectEntry>>,
    flavorTextEntries: seq<FlavorEntry>,
    names: seq<NameEntry>)

  /** The record `process_ability_data` returns; each translation maps a
      language to the text stored under `effect` or `name`. */
  datatype Ability = Ability(
    id: Option<int>,
    name: Option<string>,
    effect: Option<string>,
    effectTranslations: Dict<Language, Option<string>>,
    nameTranslations: Dict<Language, Option<string>>)

  // ---------------------------------------------------------------------------
  // The three tiers of `effect_translations`
  // ---------------------------------------------------------------------------

  /** Tier 1: each effect entry offers `short_effect or effect`. */
  function EffectPairs(entries: seq<EffectEntry>): (ps: seq<(Language, Option<string>)>)
    ensures |ps| == |entries|
    ensures forall i :: 0 <= i < |entries| ==>
      ps[i] == (entries[i].language, Or(ShortEffect(entries[i]), entries[i].effect))
  {
    seq(|entries|, i requires 0 <= i < |entries| =>
      (entries[i].language, Or(ShortEffect(entries[i]), entries[i].effect)))
  }

  /** The entries of one effect change offer their `effect`. */
  function ChangeEntryPairs(entries: seq<EffectEntry>): (ps: seq<(Language, Option<string>)>)
    ensures |ps| == |entries|
    ensures forall i :: 0 <= i < |entries| ==> ps[i] == (entries[i].language, entries[i].effect)
  {
    seq(|entries|, i requires 0 <= i < |entries| => (entries[i].language, entries[i].effect))
  }

  /** Tier 2: the entries of every effect change, change by change. */
  function ChangePairs(changes: seq<seq<EffectEntry>>): seq<(Language, Option<string>)>
    decreases |changes|
  {
    if changes == [] then []
    else ChangePairs(changes[..|changes| - 1]) + ChangeEntryPairs(changes[|changes| - 1])
  }

  /** Tier 1 overwrites, tiers 2 and 3 only fill languages still missing. */
  function EffectTranslations(raw: RawAbility): Dict<Language, Option<string>> {
    PutAllAbsent(
      PutAllAbsent(PutAll(Empty(), EffectPairs(raw.effectEntries)), ChangePairs(raw.effectChanges)),
      FlavorPairs(raw.flavorTextEntries))
  }

  /** `effect_text`: reassigned by every English effect entry. */
  function EffectText(entries: seq<EffectEntry>): Option<string>
    decreases |entries|
  {
    if entries == [] then None
    else
      var e := entries[|entries| - 1];
      if e.language == Some("en") then Or(ShortEffect(e), e.effect) else EffectText(entries[..|entries| - 1])
  }

  /** The value `process_ability_data` computes. */
  function ProcessedAbility(raw: RawAbility): Option<Ability> {
    if !raw.isMainSeries then None
    else Some(Ability(raw.id, raw.name, EffectText(raw.effectEntries), EffectTranslations(raw),
                      PutAll(Empty(), NamePairs(raw.names))))
  }

  // ---------------------------------------------------------------------------
  // What the tiers give
  // ---------------------------------------------------------------------------

  /** A language is offered by tier 1 iff some effect entry has it. */
  lemma EffectPairsKeys(entries: seq<EffectEntry>, lang: Language)
    ensures lang in KeysOf(EffectPairs(entries)) <==> exists i :: 0 <= i < |entries| && entries[i].language == lang
  {
    var ps := EffectPairs(entries);
    if exists i :: 0 <= i < |entries| && entries[i].language == lang {
      var i :| 0 <= i < |entries| && entries[i].language == lang;
      assert KeysOf(ps)[i] == lang;
    }
  }

  lemma {:induction false} ChangePairsKeys(changes: seq<seq<EffectEntry>>, lang: Language)
    ensures lang in KeysOf(ChangePairs(changes)) <==>
      exists i, j :: 0 <= i < |changes| && 0 <= j < |changes[i]| && changes[i][j].language == lang
    decreases |changes|
  {
    if changes != [] {
      var init := changes[..|changes| - 1];
      var last := changes[|changes| - 1];
      ChangePairsKeys(init, lang);
      assert KeysOf(ChangePairs(changes)) == KeysOf(ChangePairs(init)) + KeysOf(ChangeEntryPairs(last));
      if exists i, j :: 0 <= i < |changes| && 0 <= j < |changes[i]| && changes[i][j].language == lang {
        var i, j :| 0 <= i < |changes| && 0 <= j < |changes[i]| && changes[i][j].language == lang;
        if i < |changes| - 1 {
          assert init[i][j].language == lang;
        } else {
          assert KeysOf(ChangeEntryPairs(last))[j] == lang;
        }
      }
      if lang in KeysOf(ChangeEntryPairs(last)) {
        var j :| 0 <= j < |last| && KeysOf(ChangeEntryPairs(last))[j] == lang;
        assert changes[|changes| - 1][j].language == lang;
      }
    }
  }

  /** The languages of `effect_translations` are those of the three tiers together. */
  lemma EffectTranslationsDomain(raw: RawAbility, lang: Language)
    ensures lang in EffectTranslations(raw).vals <==>
      (exists i :: 0 <= i < |raw.effectEntries| && raw.effectEntries[i].language == lang)
      || (exists i, j :: 0 <= i < |raw.effectChanges| && 0 <= j < |raw.effectChanges[i]|
            && raw.effectChanges[i][j].language == lang)
      || (exists i :: 0 <= i < |raw.flavorTextEntries| && raw.flavorTextEntries[i].language == lang)
  {
    var d1 := PutAll(Empty(), EffectPairs(raw.effectEntries));
    var d2 := PutAllAbsent(d1, ChangePairs(raw.effectChanges));
    PutAllDomain(Empty(), EffectPairs(raw.effectEntries));
    EffectPairsKeys(raw.effectEntries, lang);
    PutAllAbsentDomain(d1, ChangePairs(raw.effectChanges));
    ChangePairsKeys(raw.effectChanges, lang);
    PutAllAbsentDomain(d2, FlavorPairs(raw.flavorTextEntries));
    FlavorPairsKeys(raw.flavorTextEntries, lang);
  }

  /** Tier 1: a language with an effect entry holds the text of its last one. */
  lemma EffectTranslationsTier1(raw: RawAbility, i: int)
    requires 0 <= i < |raw.effectEntries|
    requires forall j :: i < j < |raw.effectEntries| ==> raw.effectEntries[j].language != raw.effectEntries[i].language
    ensures raw.effectEntries[i].language in EffectTranslations(raw).vals
    ensures EffectTranslations(raw).vals[raw.effectEntries[i].language]
      == Or(ShortEffect(raw.effectEntries[i]), raw.effectEntries[i].effect)
  {
    var lang := raw.effectEntries[i].language;
    var d1 := PutAll(Empty(), EffectPairs(raw.effectEntries));
    var d2 := PutAllAbsent(d1, ChangePairs(raw.effectChanges));
    PutAllLastWins(Empty(), EffectPairs(raw.effectEntries), i);
    PutAllAbsentKeeps(d1, ChangePairs(raw.effectChanges), lang);
    PutAllAbsentKeeps(d2, FlavorPairs(raw.flavorTextEntries), lang);
  }

  /** Tier 2: a language without an effect entry holds the text of its first
      effect-change entry, taking the changes in order. */
  lemma EffectTranslationsTier2(raw: RawAbility, i: int)
    requires 0 <= i < |ChangePairs(raw.effectChanges)|
    requires forall j :: 0 <= j < |raw.effectEntries| ==>
      raw.effectEntries[j].language != ChangePairs(raw.effectChanges)[i].0
    requires forall j :: 0 <= j < i ==> ChangePairs(raw.effectChanges)[j].0 != ChangePairs(raw.effectChanges)[i].0
    ensures ChangePairs(raw.effectChanges)[i].0 in EffectTranslations(raw).vals
    ensures EffectTranslations(raw).vals[ChangePairs(raw.effectChanges)[i].0] == ChangePairs(raw.effectChanges)[i].1
  {
    var t1 := EffectPairs(raw.effectEntries);
    var t2 := ChangePairs(raw.effectChanges);
    var lang := t2[i].0;
    var d1 := PutAll(Empty(), t1);
    PutAllDomain(Empty(), t1);
    assert lang !in d1.vals;
    PutAllAbsentFirstWins(d1, t2, i);
    PutAllAbsentKeeps(PutAllAbsent(d1, t2), FlavorPairs(raw.flavorTextEntries), lang);
  }

  /** Tier 3: a language missing from both earlier tiers holds its first flavor text. */
  lemma EffectTranslationsTier3(raw: RawAbility, i: int)
    requires 0 <= i < |raw.flavorTextEntries|
    requires forall j :: 0 <= j < |raw.effectEntries| ==>
      raw.effectEntries[j].language != raw.flavorTextEntries[i].language
    requires forall c, j :: 0 <= c < |raw.effectChanges| && 0 <= j < |raw.effectChanges[c]| ==>
      raw.effectChanges[c][j].language != raw.flavorTextEntries[i].language
    requires forall j :: 0 <= j < i ==> raw.flavorTextEntries[j].language != raw.flavorTextEntries[i].language
    ensures raw.flavorTextEntries[i].language in EffectTranslations(raw).vals
    ensures EffectTranslations(raw).vals[raw.flavorTextEntries[i].language] == raw.flavorTextEntries[i].flavorText
  {
    var t1 := EffectPairs(raw.effectEntries);
    var t2 := ChangePairs(raw.effectChanges);
    var lang := raw.flavorTextEntries[i].language;
    var d1 := PutAll(Empty(), t1);
    PutAllDomain(Empty(), t1);
    PutAllAbsentDomain(d1, t2);
    ChangePairsKeys(raw.effectChanges, lang);
    assert lang !in PutAllAbsent(d1, t2).vals;
    PutAllAbsentFirstWins(PutAllAbsent(d1, t2), FlavorPairs(raw.flavorTextEntries), i);
  }

  /** `effect` is the tier-1 English text (`None` without an English effect
      entry), so it agrees with `effect_translations["en"]` whenever that
      language has an effect entry. */
  lemma {:induction false} EffectTextIsEnglish(entries: seq<EffectEntry>)
    ensures Some("en") in KeysOf(EffectPairs(entries)) ==>
      Some("en") in PutAll(Empty(), EffectPairs(entries)).vals
      && EffectText(entries) == PutAll(Empty(), EffectPairs(entries)).vals[Some("en")]
    ensures Some("en") !in KeysOf(EffectPairs(entries)) ==> EffectText(entries) == None
    decreases |entries|
  {
    var ps := EffectPairs(entries);
    PutAllDomain(Empty(), ps);
    if entries != [] {
      var init := entries[..|entries| - 1];
      assert ps[..|ps| - 1] == EffectPairs(init);
      KeysOfSnoc(ps);
      EffectTextIsEnglish(init);
    }
  }

  lemma EffectIsEnglishTranslation(raw: RawAbility)
    requires raw.isMainSeries
    requires Some("en") in KeysOf(EffectPairs(raw.effectEntries))
    ensures ProcessedAbility(raw).Some?
    ensures Some("en") in ProcessedAbility(raw).value.effectTranslations.vals
    ensures ProcessedAbility(raw).value.effect == ProcessedAbility(raw).value.effectTranslations.vals[Some("en")]
  {
    var d1 := PutAll(Empty(), EffectPairs(raw.effectEntries));
    var d2 := PutAllAbsent(d1, ChangePairs(raw.effectChanges));
    EffectTextIsEnglish(raw.effectEntries);
    PutAllDomain(Empty(), EffectPairs(raw.effectEntries));
    PutAllAbsentKeeps(d1, ChangePairs(raw.effectChanges), Some("en"));
    PutAllAbsentKeeps(d2, FlavorPairs(raw.flavorTextEntries), Some("en"));
  }

  // ---------------------------------------------------------------------------
  // process_ability_data
  // ---------------------------------------------------------------------------

  /** `process_ability_data`: `None` for an ability outside the main series. */
  method ProcessAbilityData(raw: RawAbility) returns (r: Option<Ability>)
    ensures r.None? <==> !raw.isMainSeries
    ensures r == ProcessedAbility(raw)
  {
    if !raw.isMainSeries {
      return None;
    }
    var effectText, translations := AddEffectEntries(raw.effectEntries);
    translations := FillFromChanges(translations, raw.effectChanges);
    translations := FillFromFlavors(translations, raw.flavorTextEntries);
    var nameTranslations := CollectNames(raw.names);
    r := Some(Ability(raw.id, raw.name, effectText, translations, nameTranslations));
  }

  /** Tier 1 and `effect_text`: every effect entry overwrites its language,
      and an English one also `effect_text`. */
  method AddEffectEntries(entries: seq<EffectEntry>) returns (effectText: Option<string>, translations: Dict<Language, Option<string>>)
    ensures translations == PutAll(Empty(), EffectPairs(entries))
    ensures effectText == EffectText(entries)
  {
    effectText := None;
    translations := Empty();
    ghost var t1 := EffectPairs(entries);
    for i := 0 to |entries|
      invariant translations == PutAll(Empty(), t1[..i])
      invariant effectText == EffectText(entries[..i])
    {
      var e := entries[i];
      var text := Or(ShortEffect(e), e.effect);
      if e.language == Some("en") {
        effectText := text;
      }
      translations := Put(translations, e.language, text);
      PutAllStep(Empty(), t1, i);
      assert entries[..i + 1][..i] == entries[..i];
    }
    assert t1[..|entries|] == t1;
    assert entries[..|entries|] == entries;
  }

  /** Tier 2: the entries of every effect change fill the languages still missing. */
  method FillFromChanges(d: Dict<Language, Option<string>>, changes: seq<seq<EffectEntry>>)
    returns (translations: Dict<Language, Option<string>>)
    ensures translations == PutAllAbsent(d, ChangePairs(changes))
  {
    translations := d;
    for i := 0 to |changes|
      invariant translations == PutAllAbsent(d, ChangePairs(changes[..i]))
    {
      translations := FillFromChange(translations, changes[i]);
      assert changes[..i + 1][..i] == changes[..i];
      PutAllAbsentAppend(d, ChangePairs(changes[..i]), ChangeEntryPairs(changes[i]));
    }
    assert changes[..|changes|] == changes;
  }

  /** The inner loop of tier 2, over the entries of one effect change. */
  method FillFromChange(d: Dict<Language, Option<string>>, change: seq<EffectEntry>)
    returns (translations: Dict<Language, Option<string>>)
    ensures translations == PutAllAbsent(d, ChangeEntryPairs(change))
  {
    translations := d;
    ghost var cs := ChangeEntryPairs(change);
    for j := 0 to |change|
      invariant translations == PutAllAbsent(d, cs[..j])
    {
      if change[j].language !in translations.vals {
        translations := Put(translations, change[j].language, change[j].effect);
      }
      assert cs[..j + 1][..j] == cs[..j];
    }
    assert cs[..|change|] == cs;
  }

  /** Tier 3: flavor texts fill the languages still missing. */
  method FillFromFlavors(d: Dict<Language, Option<string>>, flavors: seq<FlavorEntry>)
    returns (translations: Dict<Language, Option<string>>)
    ensures translations == PutAllAbsent(d, FlavorPairs(flavors))
  {
    translations := d;
    ghost var t3 := FlavorPairs(flavors);
    for i := 0 to |flavors|
      invariant translations == PutAllAbsent(d, t3[..i])
    {
      if flavors[i].language !in translations.vals {
        translations := Put(translations, flavors[i].language, flavors[i].flavorText);
      }
      assert t3[..i + 1][..i] == t3[..i];
    }
    assert t3[..|flavors|] == t3;
  }

  /** `name_translations`: each language holds the name of its last entry. */
  method CollectNames(names: seq<NameEntry>) returns (nameTranslations: Dict<Language, Option<string>>)
    ensures nameTranslations == PutAll(Empty(), NamePairs(names))
  {
    nameTranslations := Empty();
    ghost var ns := NamePairs(names);
    for i := 0 to |names|
      invariant nameTranslations == PutAll(Empty(), ns[..i])
    {
      nameTranslations := Put(nameTranslations, names[i].language, names[i].name);
      PutAllStep(Empty(), ns, i);
    }
    assert ns[..|names|] == ns;
  }

  // ---------------------------------------------------------------------------
  // Selection in main
  // ---------------------------------------------------------------------------

  /** Whether `main` stores the ability fetched under `name`; `fetched` holds
      the successful fetches. */
  predicate Selected(name: string, fetched: map<string, RawAbility>) {
    name !in ExcludedAbilities
    && name in fetched
    && (InGenerationsOneToFive(fetched[name].generation) || name in IncludedAbilities)
    && fetched[name].isMainSeries
  }

  /** What each listed name contributes to `all_abilities`. */
  function Candidates(names: seq<string>, fetched: map<string, RawAbility>): (cs: seq<Option<(Option<string>, Ability)>>)
    ensures |cs| == |names|
    ensures forall i :: 0 <= i < |names| ==>
      cs[i] == if Selected(names[i], fetched)
               then Some((fetched[names[i]].name, ProcessedAbility(fetched[names[i]]).value))
               else None
  {
    seq(|names|, i requires 0 <= i < |names| =>
      if Selected(names[i], fetched)
      then Some((fetched[names[i]].name, ProcessedAbility(fetched[names[i]]).value))
      else None)
  }

  /** The loop of `main`, the fetches given as a map from name to record. */
  method CollectAbilities(names: seq<string>, fetched: map<string, RawAbility>)
    returns (d: Dict<Option<string>, Ability>)
    ensures d == PutAll(Empty(), Somes(Candidates(names, fetched)))
  {
    d := Empty();
    ghost var cs := Candidates(names, fetched);
    for i := 0 to |names|
      invariant d == PutAll(Empty(), Somes(cs[..i]))
    {
      var name := names[i];
      if name !in ExcludedAbilities && name in fetched {
        var data := fetched[name];
        if InGenerationsOneToFive(data.generation) || name in IncludedAbilities {
          var processed := ProcessAbilityData(data);
          if processed.Some? {
            d := Put(d, processed.value.name, processed.value);
          }
        }
      }
      PutAllSomesStep(Empty(), cs, i);
    }
    assert cs[..|names|] == cs;
  }

  /** An ability is stored under its own name iff some listed name selects it,
      and holds the processed record of the last such name. */
  lemma SelectedAbilities(names: seq<string>, fetched: map<string, RawAbility>, k: Option<string>)
    ensures var d := PutAll(Empty(), Somes(Candidates(names, fetched)));
      && (k in d.vals <==> exists i :: 0 <= i < |names| && Selected(names[i], fetched) && fetched[names[i]].name == k)
      && forall i ::
           (0 <= i < |names| && Selected(names[i], fetched) && fetched[names[i]].name == k
            && (forall j :: i < j < |names| && Selected(names[j], fetched) ==> fetched[names[j]].name != k))
           ==> k in d.vals && d.vals[k] == ProcessedAbility(fetched[names[i]]).value
  {
    var cs := Candidates(names, fetched);
    PutAllSomesDomain(Empty(), cs, k);
    forall i | 0 <= i < |names| && Selected(names[i], fetched) && fetched[names[i]].name == k
        && (forall j :: i < j < |names| && Selected(names[j], fetched) ==> fetched[names[j]].name != k)
      ensures k in PutAll(Empty(), Somes(cs)).vals
      ensures PutAll(Empty(), Somes(cs)).vals[k] == ProcessedAbility(fetched[names[i]]).value
    {
      PutAllSomesLastWins(Empty(), cs, i);
    }
  }

  /** A name in the exclusion list is never kept, and a listed inclusion is kept
      whatever its generation, provided it was fetched and is main-series. */
  lemma SelectionOverrides(name: string, fetched: map<string, RawAbility>)
    ensures name in ExcludedAbilities ==> !Selected(name, fetched)
    ensures name in IncludedAbilities && name !in ExcludedAbilities && name in fetched && fetched[name].isMainSeries
      ==> Selected(name, fetched)
    ensures name !in IncludedAbilities && name in fetched && fetched[name].generation.None? ==> !Selected(name, fetched)
  {
    if name in fetched {
      InGenerationsOneToFiveIff(fetched[name].generation);
    }
  }
}
