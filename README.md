# PokeMMO-Data-Gen, modelled in Dafny

PokeMMO-Data-Gen is a set of Python scripts that build the JSON data files of a
PokeMMO companion site. Some scripts download Pokémon, moves, abilities,
natures and sprites from PokeAPI. Others read the game's local dump
(`monsters.json`, `items.json`, the per-language string files) and the data set
already generated, then re-index it:
- locations per species;
- held items per Pokémon and Pokémon per item;
- Pokémon and moves per type;
- Pokémon per gender rate;
- encounters per region, rarity and type.

This project models the data-shaping core of those scripts and proves what
each one computes.

- `wrappers.dfy`, `text.dfy`: `Option`, Python truthiness and `a or b`.
  Also the string operations the scripts use, each proved against its
  meaning: slugging (`.replace(" ", "-").lower()`), substring tests,
  `split`, `split("-", 1)[1]`, `str(int)` and `int(str)`.
- `dicts.dfy`: Python dictionaries keep insertion order, so a dictionary is
  a `Dict` value, its key sequence plus a map. A dictionary a function
  updates in place is a `Table` object. It also holds the three ways the
  scripts fill a dictionary in a loop:
  - `PutAll`: last write wins;
  - `PutAllAbsent`: first write wins;
  - `GroupAll`: append to a bucket.

  Each fold comes with lemmas about its keys and values.
- One module per script. Each loop of the source is a method with loop
  invariants. The method's contract ties its result, or the new state of
  the `Table` it updates, to a specification function. Lemmas then state
  what that function means for every input.

Network responses are parameters, either maps from the requested name or
id to the decoded record or `Option`s. A missing key stands for a response
other than 200. Files read or written are parameters and results.

## Model

| member | source | states |
|---|---|---|
| Text.SlugIsNormal | generate_held_items.py:50 | the item key keeps the name's length, has no space and no upper-case letter, and slugging it again changes nothing |
| Text.ContainsIff | download_PokeAPI_sprites.py:136 | `pattern in name` holds iff the pattern occurs in the name at some position |
| Text.ParseIntRoundTrip | download_PokeAPI_sprites.py:77 | `int(str(i)) == i` for every integer |
| Dump.SpeciesKeyIdempotent | generate_locations.py:53-57 | a species key (lower-cased name renamed through `name_change_lookup`) is a fixed point of the normalisation |
| Locations.CompileLocations | generate_locations.py:51-60 | the loop stores each monster's `locations` (or `[]`) under its species key, a later monster overwriting |
| Locations.CompiledLocations | generate_locations.py:51-60 | the keys are exactly the monsters' species keys and a key holds the list of the last monster with that key |
| Locations.KeptMember | generate_locations.py:32-36 | an entry survives removal iff it was in the list and its `location` is not in the removal list |
| Locations.KeptAppend | generate_locations.py:32-36 | filtering distributes over concatenation, so survivors keep their relative order |
| Locations.AddLocationsAt | generate_locations.py:24-27 | an added species holds its old list (or `[]` when absent) followed by the new entries; other species are unchanged |
| Locations.RemoveLocationsAt | generate_locations.py:30-39 | a present species named in `remove` keeps exactly its non-removed entries, and is deleted when none remain (even if its list was already empty); an absent one is not created |
| Locations.PatchedUntouched | generate_locations.py:21-39 | a species named in neither `add` nor `remove` is unchanged, and a missing section counts as empty |
| Locations.ApplyPatch | generate_locations.py:21-39 | the table afterwards is the old one with every addition applied, then every removal |
| Locations.AddPatchLocations | generate_locations.py:24-27 | the table afterwards is the old one with every addition applied in order |
| Locations.RemovePatchLocations | generate_locations.py:30-39 | the table afterwards is the old one with every removal applied in order |
| Locations.GenerateLocations | generate_locations.py:42-66 | the result is the compiled dictionary, patched when a patch file exists |
| HeldItems.ProcessItemData | generate_held_items.py:33-43 | copies `id` and `name`, maps `desc` to `effect` and `icon_id` to `sprite`, and has no other field |
| HeldItems.ProcessItems | generate_held_items.py:45-52 | the loop stores each processed item under the slug of its name |
| HeldItems.ProcessedItemsAt | generate_held_items.py:47-51 | the keys are exactly the item slugs and a slug holds the last item with that slug |
| HeldItems.MergeProcessedItems | generate_held_items.py:113-115 | the item table afterwards is the old one plus each processed item whose key was absent |
| HeldItems.MergeAt | generate_held_items.py:113-115 | an existing item is never overwritten; a missing key gets the processed item without holders |
| HeldItems.UpdatePokemonWithHeldItems | generate_held_items.py:54-70 | the Pokémon table afterwards is the fold of the held-item reset over the monsters |
| HeldItems.HeldAllAt | generate_held_items.py:56-68 | the keys and the other fields never change, and a Pokémon no monster names is unchanged |
| HeldItems.HeldAllLastWins | generate_held_items.py:56-68 | a Pokémon named by some monster ends with `held_items` set to `{id, slug}` of the last such monster's items, in order |
| HeldItems.SetHeldItems | generate_held_items.py:58-68 | the table afterwards differs from before only in that Pokémon's `held_items`, now the monster's list |
| HeldItems.AddHolder | generate_held_items.py:79-98 | the inner loop cross-references one monster's items |
| HeldItems.UpdateItemsWithPokemon | generate_held_items.py:72-100 | the item table afterwards is the fold of the cross-referencing over all (monster, item) pairs |
| HeldItems.CrossAllHolders | generate_held_items.py:79-98 | an item's `pokemon_with_item` is its old list (or `[]`) followed by one `{name, id}` per reference, in order; unreferenced items and every item's other fields are unchanged |
| HeldItems.CrossAllDiscovered | generate_held_items.py:88-98 | an item slug absent from the table gets the id of its first reference and its slug as name |
| HeldItems.HolderGrowth | generate_held_items.py:74-98 | each list grows by exactly the number of references to its slug, and these counts add up to the number of references |
| HeldItems.HoldersTotal | generate_held_items.py:72-98 | summed over all items, the `pokemon_with_item` lists grow by exactly the number of (monster, held item) pairs |
| HeldItems.UpdateHeldItemData | generate_held_items.py:102-121 | `main`: merge, then held items, then cross-references, each as specified above |
| PokeApi.NameTranslationsAt | download_PokeAPI_abilities.py:103-106 | a names table has each language once, exactly the languages of the entries, each with its last entry's name |
| PokeApi.FlavorPairsKeys | download_PokeAPI_abilities.py:98-101 | a language is offered by the flavor texts iff some flavor entry has it |
| PokeApi.InGenerationsOneToFiveIff | download_PokeAPI_abilities.py:64-72 | the generation filter holds iff the name is `generation-` plus the Roman numeral of 1 to 5; a missing generation fails |
| Abilities.ChangePairsKeys | download_PokeAPI_abilities.py:91-95 | a language occurs among the effect changes' entries iff some entry of some change has it |
| Abilities.EffectPairsKeys | download_PokeAPI_abilities.py:82-88 | a language is written by the effect entries iff some entry has it |
| Abilities.AddEffectEntries | download_PokeAPI_abilities.py:82-88 | the first loop writes every effect entry under its language and keeps the English text of the last English entry |
| Abilities.FillFromChanges | download_PokeAPI_abilities.py:91-95 | the effect changes, in order, only add languages still missing |
| Abilities.FillFromChange | download_PokeAPI_abilities.py:92-95 | one effect change's entries only add languages still missing |
| Abilities.FillFromFlavors | download_PokeAPI_abilities.py:98-101 | flavor texts only add languages still missing |
| Abilities.CollectNames | download_PokeAPI_abilities.py:103-106 | every name entry written under its language, a later one replacing an earlier one |
| Abilities.EffectTranslationsDomain | download_PokeAPI_abilities.py:81-101 | the languages of `effect_translations` are the union of the three tiers' languages |
| Abilities.EffectTranslationsTier1 | download_PokeAPI_abilities.py:82-88 | a language with effect entries holds `short_effect or effect` of its last entry |
| Abilities.EffectTranslationsTier2 | download_PokeAPI_abilities.py:91-95 | a language without an effect entry holds the `effect` of its first effect-change entry |
| Abilities.EffectTranslationsTier3 | download_PokeAPI_abilities.py:98-101 | a language in neither earlier tier holds its first flavor text |
| Abilities.EffectTextIsEnglish | download_PokeAPI_abilities.py:78-87 | `effect` is `short_effect or effect` of the last English entry, or `None` without one |
| Abilities.EffectIsEnglishTranslation | download_PokeAPI_abilities.py:78-88 | when there is an English effect entry, `effect` equals the English translation |
| Abilities.ProcessAbilityData | download_PokeAPI_abilities.py:75-115 | the result is `None` iff `is_main_series` is falsy, and otherwise the record the three tiers define |
| Abilities.CollectAbilities | download_PokeAPI_abilities.py:123-138 | the loop stores each selected ability's processed record under its name |
| Abilities.SelectedAbilities | download_PokeAPI_abilities.py:127-138 | a name is a key iff some listed ability is selected with that name, and it holds the last one's record |
| Abilities.SelectionOverrides | download_PokeAPI_abilities.py:127-135 | an excluded name is never kept; an included one is kept whatever its generation if fetched and main-series; otherwise a missing generation drops it |
| Moves.FirstSkill | download_PokeAPI_moves.py:38-43 | `None` iff no skill has the move's id, otherwise the first skill that has it |
| Moves.FirstMatchUnique | download_PokeAPI_moves.py:38-43 | the first match is unique |
| Moves.GetSkillDataById | download_PokeAPI_moves.py:38-43 | the linear search returns the first matching skill, or `None` when there is none |
| Moves.ProcessNameTranslations | download_PokeAPI_moves.py:83-88 | the loop builds the names table, each language holding its last entry's name |
| Moves.EntryEffect | download_PokeAPI_moves.py:96 | `short_effect` when the key is present (even if null), else `effect` |
| Moves.ProcessEffectTranslations | download_PokeAPI_moves.py:91-104 | the loop builds the effect table: effect entries overwrite, flavor texts fill missing languages |
| Moves.AddEffectEntries | download_PokeAPI_moves.py:93-97 | the first loop writes every effect entry under its language, a later entry replacing an earlier one |
| Moves.FillFromFlavorTexts | download_PokeAPI_moves.py:99-102 | the second loop adds a flavor text only for a language that has no entry yet |
| Moves.MoveEffectFromEntries | download_PokeAPI_moves.py:93-97 | a language with effect entries holds its last entry's effect |
| Moves.MoveEffectFromFlavor | download_PokeAPI_moves.py:99-102 | a language without an effect entry holds its first flavor text |
| Moves.MoveEffectDomain | download_PokeAPI_moves.py:91-104 | the languages are those of the effect entries and flavor texts together |
| Moves.ProcessMoveData | download_PokeAPI_moves.py:107-135 | `None` iff the type is `shadow`; a skill match overrides accuracy, pp and power; other fields are copied; `effect` is the first entry's `short_effect` |
| Moves.CollectMoves | download_PokeAPI_moves.py:143-153 | the loop stores each fetched generation I–V non-shadow move under its name |
| Moves.SelectedMoves | download_PokeAPI_moves.py:148-153 | a name is a key iff some listed move is kept with that name, and it holds the last one's record |
| TypesData.TypedMember | generate_types_data.py:75-78 | one Pokémon contributes one `{name, id}` per entry of its `types`, in order |
| TypesData.AddTypes | generate_types_data.py:75-78 | the inner loop appends the Pokémon to the bucket of each of its types, creating missing buckets |
| TypesData.AddType | generate_types_data.py:75-78 | one step: the bucket is created when missing and the Pokémon appended to it |
| TypesData.GenerateTypesData | generate_types_data.py:72-85 | the result is the Pokémon fold followed by the move fold |
| TypesData.AddAllPokemonAt | generate_types_data.py:74-78 | after the first loop a type has a bucket iff some Pokémon lists it; the bucket holds those Pokémon in order, no moves, and the type's translations or `{}` |
| TypesData.AddAllMovesAt | generate_types_data.py:80-83 | the second loop keeps keys, Pokémon and translations, and appends the moves of each existing non-empty type in order |
| TypesData.TypedMembersKeys | generate_types_data.py:74-76 | a type is named by some pair iff some Pokémon's `types` contains it |
| TypesData.TypesOfAt | generate_types_data.py:72-85 | a type is a key iff a Pokémon lists it; its `pokemon`, `moves` and `name_translations` are as above, and a Pokémon listing it twice appears twice |
| TypesData.TypesOfTotal | generate_types_data.py:74-78 | the `pokemon` lists together are exactly as long as all `types` lists together |
| GenderRates.MappingWellFormed | generate_gender_rates.py:10-21 | the mapping has the codes −1 to 8, each once |
| GenderRates.MappingShape | generate_gender_rates.py:10-21 | a code is in the mapping iff it is between −1 and 8, and every list starts empty |
| GenderRates.MappingPercentages | generate_gender_rates.py:10-21 | code c ≥ 0 is c eighths female and the two percentages add up to 100; genderless is 0 and 0 |
| GenderRates.CodedMembers | generate_gender_rates.py:30-33 | each Pokémon is paired with its `gender_rate` and its `{name, id}`, in order |
| GenderRates.UpdateGenderRatesWithPokemon | generate_gender_rates.py:28-34 | the mapping afterwards is the fold of the appends over the Pokémon |
| GenderRates.AddMembersAt | generate_gender_rates.py:30-33 | the codes and their order do not change, nor do names or percentages; each list grows by the Pokémon with that code, in order |
| GenderRates.UnrecognisedNowhere | generate_gender_rates.py:31-33 | a Pokémon with a missing or unknown code ends up in no list |
| GenderRates.AtMostOneList | generate_gender_rates.py:30-33 | a Pokémon is in at most one list |
| GenderRates.AddMembersTotal | generate_gender_rates.py:30-33 | the lists grow in total by exactly the number of Pokémon with a recognised code |
| GenderRates.GenderRatesOf | generate_gender_rates.py:43-51 | the mapping `main` saves has the ten codes, each list holding exactly the Pokémon with that code |
| LocationIndex.KeyedBy | generate_location_regions.py:11-15 | each encounter is paired with its indexed field |
| LocationIndex.AddEncounters | generate_location_regions.py:11-15 | the inner loop appends one location's encounters to their buckets |
| LocationIndex.GroupEncounters | generate_location_regions.py:8-16 | the nested loop builds the grouping of all encounters by the field |
| LocationIndex.GenerateRegionData | generate_location_regions.py:8-16 | the region index is the grouping by `region_name` |
| LocationIndex.GenerateRarityData | generate_location_rarities.py:8-16 | the rarity index is the grouping by `rarity` |
| LocationIndex.GenerateTypeData | generate_location_types.py:8-16 | the type index is the grouping by `type` |
| LocationIndex.BucketCount | generate_location_regions.py:11-15 | an encounter occurs in its own key's bucket as often as in the input, and in no other bucket |
| LocationIndex.IndexedAt | generate_location_regions.py:8-16 | the keys are exactly the field values occurring (a missing field gives the key `None`), and each bucket holds its encounters in input order |
| LocationIndex.IndexedTotal | generate_location_regions.py:8-16 | the bucket sizes add up to the number of encounters |
| PokeMMOItems.ReadTranslations | generate_PokeMMO_items.py:26-33 | every language gets a table, empty when its string file is missing |
| PokeMMOItems.ReadTables | generate_PokeMMO_items.py:26-33 | each listed language gets its file's table, or an empty one, and no other language gets a table |
| PokeMMOItems.Localised | generate_PokeMMO_items.py:42-43 | the translation table has exactly the ten languages, in order, each holding the string for the id or `""` |
| PokeMMOItems.ProcessItemData | generate_PokeMMO_items.py:40-53 | copies `id` and `name`, maps `desc` to `effect` and `icon_id` to `sprite`, and localises both string ids |
| PokeMMOItems.ItemTranslations | generate_PokeMMO_items.py:28-43 | a language's name and effect are the file's strings for the ids, `""` when the id is missing, and `""` throughout when the file is missing |
| PokeMMOItems.ItemPairs | generate_PokeMMO_items.py:67-70 | each processed item is paired with the slug of its name |
| PokeMMOItems.CollectItems | generate_PokeMMO_items.py:67-70 | the loop stores each processed item under its slug |
| PokeMMOItems.CollectedItemsAt | generate_PokeMMO_items.py:67-70 | the keys are exactly the item slugs, each a slug, and a slug holds the last item with it |
| SpriteRules.VarietyExclusionImpliesForm | download_PokeAPI_sprites.py:92-122 | the 25 variety patterns are the first 25 of the 37 form patterns, so an excluded variety name is also an excluded form name |
| SpriteRules.ExcludedFormIff | download_PokeAPI_sprites.py:136 | a form is excluded iff one of the patterns occurs in its name |
| SpriteRules.UrlId | download_PokeAPI_sprites.py:76-77 | an id, when there is one, is the integer value of the second-to-last `/` segment |
| SpriteRules.UrlIdOf | download_PokeAPI_sprites.py:76-77 | a resource URL `<base>/<n>/` gives back `n` |
| SpriteRules.InFirstFiveGenerationsOf | download_PokeAPI_sprites.py:72-79 | a species whose generation URL ends in `/<n>/` is kept iff 1 ≤ n ≤ 5 |
| SpriteRules.FileStemOf | download_PokeAPI_sprites.py:199-203 | the stem is the base id; with a hyphen in the form name it is followed by `-` and everything after the first hyphen |
| SpriteRules.BlackWhiteOf | download_PokeAPI_sprites.py:204-227 | the synthesised object has the eight animated and eight still slots |
| SpriteRules.SlotsComplete | download_PokeAPI_sprites.py:208-224 | there are exactly eight slots and each has its own sprite key |
| SpriteRules.BlackWhiteAt | download_PokeAPI_sprites.py:208-224 | every slot is `None` iff the same-named sprite is missing or falsy, else the Black/White prefix, slot directories, stem and `.gif` or `.png` |
| SpriteRules.SpriteUrlShape | download_PokeAPI_sprites.py:208-224 | every URL starts with the Black/White prefix and ends with the stem and the extension |
| SpriteAssembly.VarietyIds | download_PokeAPI_sprites.py:88-127 | every id comes from a variety that is not excluded, and there are no more ids than varieties |
| SpriteAssembly.VarietyIdsAppend | download_PokeAPI_sprites.py:89-125 | filtering distributes over concatenation, so the ids keep the input order |
| SpriteAssembly.ProcessVarieties | download_PokeAPI_sprites.py:82-129 | a failed fetch gives `[]`; otherwise the loop returns the ids of the varieties that are not excluded |
| SpriteAssembly.FormInfos | download_PokeAPI_sprites.py:132-142 | every kept form is a listed, non-excluded form whose fetch succeeded, with the fetched id |
| SpriteAssembly.FormInfosAppend | download_PokeAPI_sprites.py:134-141 | filtering distributes over concatenation, so the forms keep the input order |
| SpriteAssembly.FormInfosOne | download_PokeAPI_sprites.py:134-141 | one form is kept iff it is not excluded and its fetch succeeded |
| SpriteAssembly.ProcessForms | download_PokeAPI_sprites.py:132-142 | the loop returns the kept forms |
| SpriteAssembly.AddForms | download_PokeAPI_sprites.py:196-228 | the form loop performs one insert per fetched form |
| SpriteAssembly.AddVariety | download_PokeAPI_sprites.py:190-228 | one variety: its record stored by name without `forms`, then its forms |
| SpriteAssembly.AddSpecies | download_PokeAPI_sprites.py:187-228 | a kept species contributes its varieties' writes in order; any other contributes nothing |
| SpriteAssembly.CollectSprites | download_PokeAPI_sprites.py:184-228 | `all_sprites_data` is the result of all writes for species 1 to `count` |
| SpriteAssembly.ApplyAllDomain | download_PokeAPI_sprites.py:194-228 | the keys are exactly the names written |
| SpriteAssembly.OverwriteWins | download_PokeAPI_sprites.py:194 | a base record stays under its name unless a later base record has that name; form records never replace it |
| SpriteAssembly.InsertKeeps | download_PokeAPI_sprites.py:199 | a name present beforehand that only forms write keeps its record |
| SpriteAssembly.FirstInsertWins | download_PokeAPI_sprites.py:199-228 | a form record whose name was new and is written only by later forms stays |
| SpriteAssembly.FirstInsertLands | download_PokeAPI_sprites.py:199-228 | right after the first write of a new name, the name holds that record |
| SpriteAssembly.AddVarieties | download_PokeAPI_sprites.py:189-228 | the loop over a species' varieties performs exactly the writes the specification lists, in order |
| SpriteAssembly.FormWritesShape | download_PokeAPI_sprites.py:196-228 | all writes for a variety's forms are inserts of non-excluded names with synthesised URLs |
| SpriteAssembly.AllSpritesShape | download_PokeAPI_sprites.py:184-228 | every form record in the result has a non-excluded name and synthesised URLs, and the keys are exactly the names written |
| Natures.RefName | download_PokeAPI_natures.py:62-81 | a projected field is `None` iff the field is missing, empty or nameless; otherwise it is the nested `name` |
| Natures.ProjectPreference | download_PokeAPI_natures.py:83-90 | a preference is projected to exactly its three fields |
| Natures.ProcessNatureData | download_PokeAPI_natures.py:61-101 | copies `id` and `name`, projects the four named fields, and keeps the preferences' length and order |
| Natures.CollectNatures | download_PokeAPI_natures.py:109-117 | the loop stores every fetched nature under its name |
| Natures.CollectedNatures | download_PokeAPI_natures.py:113-117 | nothing fetched is filtered out: a name is a key iff some fetched nature has it, and it holds the last such nature |

## Left out

- `request_with_retry`, its sleep and retry loop, the pagination loops (`get_all_*`), the detail fetches and `fetch_type_translations`. These are network calls. Their results are parameters: maps from name or id to the decoded record, with an absent key for a response other than 200.
- JSON and XML reading and writing, `os.makedirs`, path construction and the logging `print`s. These are I/O; the model takes and returns the decoded values.
- The gender-rate percentages are Python numbers. The model holds them as exact rationals (`real`) and does no floating-point arithmetic.
- `str.lower()` is modelled on ASCII letters only. Lower-casing of other Unicode letters (as in `NIDORAN♀`) is not modelled.
- `int()` is modelled on an optional `-` followed by decimal digits. Other accepted spellings (leading `+`, surrounding spaces, underscores) are not.
- Nested dictionaries that the scripts mutate through shared references are modelled as values that are replaced. The sprite script's `pop("forms")` and `versions` assignment build new records.
- The scripts' failures (a `KeyError`, `int()` raising, `None.replace`) are preconditions on the inputs the script reaches. Examples: `Parsable` (the generation URL of every species from 1 to `count`, and the variety URLs of the kept species only) and `Named`.
- A names or effect entry of a move without a `language` key makes `download_PokeAPI_moves.py` raise `KeyError`. The model reads it as the `None` language, as the ability script does, so it is stored under `None` rather than stopping the run. A `language` whose `name` is null is stored under `None` by both the script and the model.
- A JSON `null` where the source calls a method on the value is not modelled. Example: `"move_battle_style": null`, which makes `.get` fail.
- A JSON object is modelled by its fields. Truthiness of a fetched object is taken as "fetched": PokeAPI records are never empty.
- A missing list is the empty sequence, and a missing scalar is `None`. Keys whose value is not modelled have no field.
- PokeMMOItems.Localised: each language maps directly to its string. The one-field object around it (`{"name": …}`, `{"effect": …}`) is not modelled, and neither is the one around the ability and move translations.
- SpriteAssembly.CollectSprites: `is_in_first_five_generations` and `process_varieties` fetch the same species URL. The model gives both the same response.
- SpriteRules.SpriteUrlShape: does not show that different slots give different URLs, because the stem is arbitrary text.
- The sprite script's `count` is the response's `count` field, given as a parameter.
- Pokémon sprite fields other than the eight slot keys are opaque. PokeAPI's own `versions` is an opaque map.
