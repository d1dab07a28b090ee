/** generate_PokeMMO_items.py: the PokeMMO item dump localised through the
    per-language string tables and keyed by item slug. */
module PokeMMOItems {
  import opened Wrappers
  import opened Text
  import opened Dicts

  /** The supported languages, in output order. */
  const Languages: seq<string> := ["en", "de", "es", "fr", "it", "ja", "ko", "pl", "pt-BR", "zh-Hant"]

  /** One string file: string id → the element's text (`None` for an element
      without text). */
  type StringTable = map<string, Option<string>>

  /** An entry of `items.json`. `name_string_id` and `desc_string_id` are
      required; the other fields are `None` when missing. */
  datatype RawItem = RawItem(
    id: Option<int>,
    name: Option<string>,
    nameStringId: int,
    desc: Option<string>,
    descStringId: int,
    iconId: Option<int>)

  /** An `item-data.json` record. Each translation table maps a language to
      the text of its one-field object (`{"name": …}` or `{"effect": …}`). */
  datatype Item = Item(
    id: Option<int>,
    name: Option<string>,
    nameTranslations: Dict<string, Option<string>>,
    effect: Option<string>,
    effectTranslations: Dict<string, Option<string>>,
    sprite: Option<int>)

  lemma LanguagesDistinct()
    ensures Distinct(Languages) && |Languages| == 10
  {
  }

  // ---------------------------------------------------------------------------
  // read_translations
  // ---------------------------------------------------------------------------

  /** The tables `read_translations` returns, given the string files that exist. */
  function TablesOf(files: map<string, StringTable>): map<string, StringTable> {
    TablesFor(Languages, files)
  }

  /** One table per listed language: its file, or empty when there is none. */
  function TablesFor(langs: seq<string>, files: map<string, StringTable>): map<string, StringTable> {
    map lang | lang in langs :: if lang in files then files[lang] else map[]
  }

  /** `read_translations`: every language gets a table, empty when its string
      file does not exist; files of other languages are not read. */
  method ReadTranslations(files: map<string, StringTable>) returns (tables: map<string, StringTable>)
    ensures tables == TablesOf(files)
    ensures forall lang :: lang in tables <==> lang in Languages
    ensures forall lang :: lang in Languages && lang !in files ==> tables[lang] == map[]
  {
    tables := ReadTables(Languages, files);
  }

  /** The two loops of `read_translations`, over any list of languages. */
  method ReadTables(langs: seq<string>, files: map<string, StringTable>) returns (tables: map<string, StringTable>)
    ensures tables == TablesFor(langs, files)
  {
    tables := map lang | lang in langs :: map[];
    for i := 0 to |langs|
      invariant forall lang :: lang in tables <==> lang in langs
      invariant forall lang :: lang in tables ==>
        tables[lang] == if lang in files && lang in langs[..i] then files[lang] else map[]
    {
      var lang := langs[i];
      assert forall l :: l in langs[..i + 1] <==> l in langs[..i] || l == lang by {
        assert langs[..i + 1] == langs[..i] + [lang];
      }
      if lang in files {
        tables := tables[lang := files[lang]];
      }
    }
    assert langs[..|langs|] == langs;
  }

  // ---------------------------------------------------------------------------
  // process_item_data
  // ---------------------------------------------------------------------------

  /** `translations[lang].get(key, "")` */
  function Lookup(tables: map<string, StringTable>, lang: string, key: string): Option<string>
    requires lang in tables
  {
    if key in tables[lang] then tables[lang][key] else Some("")
  }

  /** `{lang: translations[lang].get(str(stringId), "") for lang in languages}` */
  function Localised(tables: map<string, StringTable>, stringId: int): (r: Dict<string, Option<string>>)
    requires forall lang :: lang in Languages ==> lang in tables
    ensures WellFormed(r) && r.keys == Languages
    ensures forall i :: 0 <= i < |Languages| ==> r.vals[Languages[i]] == Lookup(tables, Languages[i], IntToString(stringId))
  {
    LanguagesDistinct();
    Dict(Languages, map lang | lang in Languages :: Lookup(tables, lang, IntToString(stringId)))
  }

  /** `process_item_data(raw_data, translations)` */
  function ProcessItemData(raw: RawItem, tables: map<string, StringTable>): (r: Item)
    requires forall lang :: lang in Languages ==> lang in tables
    ensures r.id == raw.id && r.name == raw.name && r.effect == raw.desc && r.sprite == raw.iconId
    ensures r.nameTranslations == Localised(tables, raw.nameStringId)
    ensures r.effectTranslations == Localised(tables, raw.descStringId)
  {
    Item(raw.id, raw.name, Localised(tables, raw.nameStringId), raw.desc, Localised(tables, raw.descStringId), raw.iconId)
  }

  /** Both translation tables have exactly the ten languages, in order; a
      language's text is the entry for the string id in that language's file,
      `""` when the file lacks the id, and `""` for every id when the file is
      missing. */
  lemma ItemTranslations(raw: RawItem, files: map<string, StringTable>, lang: string)
    requires lang in Languages
    ensures var r := ProcessItemData(raw, TablesOf(files));
      var nameKey := IntToString(raw.nameStringId);
      var descKey := IntToString(raw.descStringId);
      && r.nameTranslations.keys == Languages && r.effectTranslations.keys == Languages
      && r.nameTranslations.vals[lang] ==
           (if lang in files && nameKey in files[lang] then files[lang][nameKey] else Some(""))
      && r.effectTranslations.vals[lang] ==
           (if lang in files && descKey in files[lang] then files[lang][descKey] else Some(""))
  {
    var i :| 0 <= i < |Languages| && Languages[i] == lang;
    var tables := TablesOf(files);
    assert Localised(tables, raw.nameStringId).vals[Languages[i]] == Lookup(tables, lang, IntToString(raw.nameStringId));
    assert Localised(tables, raw.descStringId).vals[Languages[i]] == Lookup(tables, lang, IntToString(raw.descStringId));
  }

  // ---------------------------------------------------------------------------
  // main
  // ---------------------------------------------------------------------------

  predicate Named(items: seq<RawItem>) {
    forall i :: 0 <= i < |items| ==> items[i].name.Some?
  }

  /** Each processed item under the slug of its name. */
  function ItemPairs(items: seq<RawItem>, tables: map<string, StringTable>): (ps: seq<(string, Item)>)
    requires Named(items)
    requires forall lang :: lang in Languages ==> lang in tables
    ensures |ps| == |items|
    ensures forall i :: 0 <= i < |items| ==> ps[i] == (Slug(items[i].name.value), ProcessItemData(items[i], tables))
  {
    seq(|items|, i requires 0 <= i < |items| => (Slug(items[i].name.value), ProcessItemData(items[i], tables)))
  }

  /** The loop of `main`; an item without a name stops the script, so every
      item is required to have one. */
  method CollectItems(items: seq<RawItem>, tables: map<string, StringTable>) returns (d: Dict<string, Item>)
    requires Named(items)
    requires forall lang :: lang in Languages ==> lang in tables
    ensures d == PutAll(Empty(), ItemPairs(items, tables))
  {
    d := Empty();
    ghost var ps := ItemPairs(items, tables);
    for i := 0 to |items|
      invariant d == PutAll(Empty(), ps[..i])
    {
      var processed := ProcessItemData(items[i], tables);
      d := Put(d, Slug(processed.name.value), processed);
      PutAllStep(Empty(), ps, i);
    }
    assert ps[..|items|] == ps;
  }

  /** The slugs of the item names, in input order. */
  function ItemSlugs(items: seq<RawItem>): (ks: seq<string>)
    requires Named(items)
    ensures |ks| == |items|
    ensures forall i :: 0 <= i < |items| ==> ks[i] == Slug(items[i].name.value)
  {
    seq(|items|, i requires 0 <= i < |items| => Slug(items[i].name.value))
  }

  /** The keys are the slugs of the item names, each a slug, and each key
      holds the last item with that slug. */
  lemma CollectedItemsAt(items: seq<RawItem>, tables: map<string, StringTable>, i: int)
    requires Named(items)
    requires forall lang :: lang in Languages ==> lang in tables
    requires 0 <= i < |items|
    requires forall j :: i < j < |items| ==> Slug(items[j].name.value) != Slug(items[i].name.value)
    ensures var d := PutAll(Empty(), ItemPairs(items, tables));
      && WellFormed(d)
      && (forall k :: k in d.vals <==> k in ItemSlugs(items))
      && (forall k :: k in d.vals ==> IsSlug(k))
      && d.vals[Slug(items[i].name.value)] == ProcessItemData(items[i], tables)
  {
    var ps := ItemPairs(items, tables);
    var d := PutAll(Empty(), ps);
    var slugs := ItemSlugs(items);
    assert KeysOf(ps) == slugs;
    PutAllDomain(Empty(), ps);
    assert forall k :: k in d.vals <==> k in slugs;
    forall k | k in slugs ensures IsSlug(k) {
      var j :| 0 <= j < |slugs| && slugs[j] == k;
      SlugIsNormal(items[j].name.value);
    }
    assert ps[i].0 == Slug(items[i].name.value);
    PutAllLastWins(Empty(), ps, i);
  }
}
