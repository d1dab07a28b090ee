/** download_PokeAPI_sprites.py, `main`: the sprite records of every kept
    variety and of its kept forms, keyed by name. The PokeAPI responses are
    given as maps; a missing key is a response other than 200. */
module SpriteAssembly {
  import opened Wrappers
  import opened Dicts
  import opened SpriteRules

  datatype Variety = Variety(name: string, url: string)

  /** A `pokemon-species` response: its generation's URL and its varieties. */
  datatype Species = Species(generationUrl: string, varieties: seq<Variety>)

  /** The `versions` field of a sprite record: as PokeAPI sent it, or the
      Black/White object built for a form. */
  datatype Versions = ApiVersions(raw: map<string, string>) | BlackWhiteOnly(blackWhite: BlackWhite)

  datatype SpriteSet = SpriteSet(fields: SpriteFields, versions: Versions)

  /** A `pokemon` response: its name, sprites and the names of its forms. */
  datatype PokemonRecord = PokemonRecord(name: string, sprites: SpriteSet, forms: seq<string>)

  /** A `pokemon-form` response. */
  datatype FormRecord = FormRecord(id: int, name: string, sprites: SpriteSet)

  datatype FormInfo = FormInfo(name: string, id: int)

  /** A record of `pokemon-sprites.json`. */
  datatype SpriteEntry = SpriteEntry(id: int, name: string, sprites: SpriteSet)

  /** The responses the script receives: the Pokémon count, species by id,
      Pokémon by id, form ids by form name and forms by id. */
  datatype Api = Api(
    count: nat,
    species: map<int, Species>,
    pokemon: map<int, PokemonRecord>,
    formIds: map<string, int>,
    forms: map<int, FormRecord>)

  /** The URLs the script parses are well formed; otherwise `int()` raises.
      It reads the generation URL of every species from 1 to `count`, and the
      variety URLs only of the species it keeps. */
  predicate Parsable(api: Api) {
    forall i :: 1 <= i <= api.count && i in api.species ==> SpeciesParses(api.species[i])
  }

  /** The generation URL parses, and so do the variety URLs of a kept species. */
  predicate SpeciesParses(sp: Species) {
    UrlId(sp.generationUrl).Some? && (InFirstFiveGenerations(sp.generationUrl) ==> VarietiesParse(sp.varieties))
  }

  /** `process_varieties` parses the URL of every variety it does not exclude. */
  predicate VarietiesParse(vs: seq<Variety>) {
    forall v :: v in vs && !ExcludedVariety(v.name) ==> UrlId(v.url).Some?
  }

  // ---------------------------------------------------------------------------
  // process_varieties and process_forms
  // ---------------------------------------------------------------------------

  /** The ids of the varieties that are not excluded, in input order. */
  function VarietyIds(vs: seq<Variety>): (ids: seq<int>)
    requires forall v :: v in vs && !ExcludedVariety(v.name) ==> UrlId(v.url).Some?
    ensures |ids| <= |vs|
    ensures forall id :: id in ids ==> exists v :: v in vs && !ExcludedVariety(v.name) && UrlId(v.url) == Some(id)
    decreases |vs|
  {
    if vs == [] then []
    else
      var v := vs[|vs| - 1];
      var rest := VarietyIds(vs[..|vs| - 1]);
      if ExcludedVariety(v.name) then rest else rest + [UrlId(v.url).value]
  }

  /** Filtering keeps the input order: the ids of a concatenation are the
      ids of each part, one after the other. */
  lemma {:induction false} VarietyIdsAppend(xs: seq<Variety>, ys: seq<Variety>)
    requires forall v :: v in xs + ys && !ExcludedVariety(v.name) ==> UrlId(v.url).Some?
    ensures VarietyIds(xs + ys) == VarietyIds(xs) + VarietyIds(ys)
    decreases |ys|
  {
    if ys == [] {
      assert xs + ys == xs;
    } else {
      var init := ys[..|ys| - 1];
      assert (xs + ys)[..|xs + ys| - 1] == xs + init;
      VarietyIdsAppend(xs, init);
    }
  }

  /** `process_varieties(species_id)` after the species was fetched. */
  method ProcessVarieties(species: Option<Species>) returns (ids: seq<int>)
    requires species.Some? ==> forall v :: v in species.value.varieties && !ExcludedVariety(v.name) ==> UrlId(v.url).Some?
    ensures species.None? ==> ids == []
    ensures species.Some? ==> ids == VarietyIds(species.value.varieties)
  {
    ids := [];
    if species.Some? {
      var vs := species.value.varieties;
      for i := 0 to |vs|
        invariant ids == VarietyIds(vs[..i])
      {
        assert vs[..i + 1][..i] == vs[..i];
        if !ExcludedVariety(vs[i].name) {
          ids := ids + [UrlId(vs[i].url).value];
        }
      }
      assert vs[..|vs|] == vs;
    }
  }

  /** The forms that are not excluded and whose form fetch succeeded, in input order. */
  function FormInfos(names: seq<string>, formIds: map<string, int>): (infos: seq<FormInfo>)
    ensures |infos| <= |names|
    ensures forall f :: f in infos ==>
      f.name in names && !ExcludedForm(f.name) && f.name in formIds && formIds[f.name] == f.id
    decreases |names|
  {
    if names == [] then []
    else
      var name := names[|names| - 1];
      var rest := FormInfos(names[..|names| - 1], formIds);
      if !ExcludedForm(name) && name in formIds then rest + [FormInfo(name, formIds[name])] else rest
  }

  lemma {:induction false} FormInfosAppend(xs: seq<string>, ys: seq<string>, formIds: map<string, int>)
    ensures FormInfos(xs + ys, formIds) == FormInfos(xs, formIds) + FormInfos(ys, formIds)
    decreases |ys|
  {
    if ys == [] {
      assert xs + ys == xs;
    } else {
      assert (xs + ys)[..|xs + ys| - 1] == xs + ys[..|ys| - 1];
      FormInfosAppend(xs, ys[..|ys| - 1], formIds);
    }
  }

  /** A form is kept iff it is not excluded and its fetch succeeded. */
  lemma FormInfosOne(name: string, formIds: map<string, int>)
    ensures FormInfos([name], formIds) ==
      if !ExcludedForm(name) && name in formIds then [FormInfo(name, formIds[name])] else []
  {
    assert [name][..0] == [];
  }

  /** `process_forms(form_data)` */
  method ProcessForms(names: seq<string>, formIds: map<string, int>) returns (infos: seq<FormInfo>)
    ensures infos == FormInfos(names, formIds)
  {
    infos := [];
    for i := 0 to |names|
      invariant infos == FormInfos(names[..i], formIds)
    {
      assert names[..i + 1][..i] == names[..i];
      if !ExcludedForm(names[i]) && names[i] in formIds {
        infos := infos + [FormInfo(names[i], formIds[names[i]])];
      }
    }
    assert names[..|names|] == names;
  }

  // ---------------------------------------------------------------------------
  // The writes of `main`, in order
  // ---------------------------------------------------------------------------

  /** A base record overwrites; a form record is only inserted when its name is new. */
  datatype Write = Overwrite(key: string, entry: SpriteEntry) | Insert(key: string, entry: SpriteEntry)

  function Apply(d: Dict<string, SpriteEntry>, w: Write): Dict<string, SpriteEntry> {
    match w
    case Overwrite(k, e) => Put(d, k, e)
    case Insert(k, e) => if k in d.vals then d else Put(d, k, e)
  }

  function ApplyAll(d: Dict<string, SpriteEntry>, ws: seq<Write>): (r: Dict<string, SpriteEntry>)
    ensures WellFormed(d) ==> WellFormed(r)
    decreases |ws|
  {
    if ws == [] then d else Apply(ApplyAll(d, ws[..|ws| - 1]), ws[|ws| - 1])
  }

  lemma {:induction false} ApplyAllAppend(d: Dict<string, SpriteEntry>, xs: seq<Write>, ys: seq<Write>)
    ensures ApplyAll(d, xs + ys) == ApplyAll(ApplyAll(d, xs), ys)
    decreases |ys|
  {
    if ys == [] {
      assert xs + ys == xs;
    } else {
      assert (xs + ys)[..|xs + ys| - 1] == xs + ys[..|ys| - 1];
      ApplyAllAppend(d, xs, ys[..|ys| - 1]);
    }
  }

  /** A form's record with its `versions` replaced by the synthesised Black/White URLs. */
  function FormEntry(baseId: int, info: FormInfo, rec: FormRecord): SpriteEntry {
    var stem := FileStem(baseId, info.name);
    SpriteEntry(rec.id, rec.name, rec.sprites.(versions := BlackWhiteOnly(BlackWhiteOf(rec.sprites.fields, stem))))
  }

  /** The inserts for the forms of the Pokémon with id `baseId`. */
  function FormWrites(baseId: int, infos: seq<FormInfo>, forms: map<int, FormRecord>): seq<Write>
    decreases |infos|
  {
    if infos == [] then []
    else
      var info := infos[|infos| - 1];
      FormWrites(baseId, infos[..|infos| - 1], forms)
        + if info.id in forms then [Insert(info.name, FormEntry(baseId, info, forms[info.id]))] else []
  }

  /** The writes for one variety: its record without `forms`, then its forms. */
  function VarietyWrites(api: Api, id: int): seq<Write> {
    if id in api.pokemon then
      var p := api.pokemon[id];
      [Overwrite(p.name, SpriteEntry(id, p.name, p.sprites))] + FormWrites(id, FormInfos(p.forms, api.formIds), api.forms)
    else []
  }

  function VarietiesWrites(api: Api, ids: seq<int>): seq<Write>
    decreases |ids|
  {
    if ids == [] then [] else VarietiesWrites(api, ids[..|ids| - 1]) + VarietyWrites(api, ids[|ids| - 1])
  }

  predicate Kept(api: Api, i: int) {
    i in api.species && InFirstFiveGenerations(api.species[i].generationUrl)
  }

  function SpeciesWrites(api: Api, i: int): seq<Write>
    requires Parsable(api) && 1 <= i <= api.count
  {
    if Kept(api, i) then VarietiesWrites(api, VarietyIds(api.species[i].varieties)) else []
  }

  /** The writes for species 1 to `n`. */
  function RangeWrites(api: Api, n: nat): seq<Write>
    requires Parsable(api) && n <= api.count
  {
    if n == 0 then [] else RangeWrites(api, n - 1) + SpeciesWrites(api, n)
  }

  /** `all_sprites_data` at the end of `main`. */
  function AllSprites(api: Api): Dict<string, SpriteEntry>
    requires Parsable(api)
  {
    ApplyAll(Empty(), RangeWrites(api, api.count))
  }

  // ---------------------------------------------------------------------------
  // main
  // ---------------------------------------------------------------------------

  method AddForms(d0: Dict<string, SpriteEntry>, baseId: int, infos: seq<FormInfo>, forms: map<int, FormRecord>)
    returns (d: Dict<string, SpriteEntry>)
    ensures d == ApplyAll(d0, FormWrites(baseId, infos, forms))
  {
    d := d0;
    for j := 0 to |infos|
      invariant d == ApplyAll(d0, FormWrites(baseId, infos[..j], forms))
    {
      var info := infos[j];
      assert infos[..j + 1][..j] == infos[..j];
      ghost var prev := FormWrites(baseId, infos[..j], forms);
      if info.id in forms {
        var entry := FormEntry(baseId, info, forms[info.id]);
        if info.name !in d.vals {
          d := Put(d, info.name, entry);
        }
        ghost var ws := prev + [Insert(info.name, entry)];
        assert FormWrites(baseId, infos[..j + 1], forms) == ws;
        assert ws[..|ws| - 1] == prev;
      } else {
        assert FormWrites(baseId, infos[..j + 1], forms) == prev + [];
        assert prev + [] == prev;
      }
    }
    assert infos[..|infos|] == infos;
  }

  method AddVariety(d0: Dict<string, SpriteEntry>, api: Api, id: int) returns (d: Dict<string, SpriteEntry>)
    ensures d == ApplyAll(d0, VarietyWrites(api, id))
  {
    d := d0;
    if id in api.pokemon {
      var p := api.pokemon[id];
      var infos := ProcessForms(p.forms, api.formIds);
      var entry := SpriteEntry(id, p.name, p.sprites);
      d := Put(d, p.name, entry);
      assert d == ApplyAll(d0, [Overwrite(p.name, entry)]);
      d := AddForms(d, id, infos, api.forms);
      ApplyAllAppend(d0, [Overwrite(p.name, entry)], FormWrites(id, infos, api.forms));
    }
  }

  method AddSpecies(d0: Dict<string, SpriteEntry>, api: Api, i: int) returns (d: Dict<string, SpriteEntry>)
    requires Parsable(api) && 1 <= i <= api.count
    ensures d == ApplyAll(d0, SpeciesWrites(api, i))
  {
    d := d0;
    if i in api.species && InFirstFiveGenerations(api.species[i].generationUrl) {
      var ids := ProcessVarieties(Some(api.species[i]));
      d := AddVarieties(d0, api, ids);
    }
  }

  /** The variety loop of one species, over the ids `process_varieties` kept. */
  method AddVarieties(d0: Dict<string, SpriteEntry>, api: Api, ids: seq<int>) returns (d: Dict<string, SpriteEntry>)
    ensures d == ApplyAll(d0, VarietiesWrites(api, ids))
  {
    d := d0;
    for j := 0 to |ids|
      invariant d == ApplyAll(d0, VarietiesWrites(api, ids[..j]))
    {
      assert ids[..j + 1][..j] == ids[..j];
      d := AddVariety(d, api, ids[j]);
      ApplyAllAppend(d0, VarietiesWrites(api, ids[..j]), VarietyWrites(api, ids[j]));
    }
    assert ids[..|ids|] == ids;
  }

  /** `main` without the downloads and the file output. */
  method CollectSprites(api: Api) returns (d: Dict<string, SpriteEntry>)
    requires Parsable(api)
    ensures d == AllSprites(api)
  {
    d := Empty();
    for n := 0 to api.count
      invariant d == ApplyAll(Empty(), RangeWrites(api, n))
    {
      d := AddSpecies(d, api, n + 1);
      RangeWritesStep(api, n + 1);
    }
  }

  /** Applying the writes for species 1 to `i` is applying those for 1 to
      `i - 1`, then those of species `i`. */
  lemma RangeWritesStep(api: Api, i: int)
    requires Parsable(api) && 1 <= i <= api.count
    ensures ApplyAll(Empty(), RangeWrites(api, i)) == ApplyAll(ApplyAll(Empty(), RangeWrites(api, i - 1)), SpeciesWrites(api, i))
  {
    ApplyAllAppend(Empty(), RangeWrites(api, i - 1), SpeciesWrites(api, i));
  }

  // ---------------------------------------------------------------------------
  // What the writes do
  // ---------------------------------------------------------------------------

  function WriteKeys(ws: seq<Write>): (ks: seq<string>)
    ensures |ks| == |ws|
    ensures forall i :: 0 <= i < |ws| ==> ks[i] == ws[i].key
  {
    seq(|ws|, i requires 0 <= i < |ws| => ws[i].key)
  }

  /** The keys afterwards are the old keys and every key written. */
  lemma {:induction false} ApplyAllDomain(d: Dict<string, SpriteEntry>, ws: seq<Write>, k: string)
    ensures k in ApplyAll(d, ws).vals <==> k in d.vals || k in WriteKeys(ws)
    decreases |ws|
  {
    if ws != [] {
      ApplyAllDomain(d, ws[..|ws| - 1], k);
      assert WriteKeys(ws) == WriteKeys(ws[..|ws| - 1]) + [ws[|ws| - 1].key];
    }
  }

  /** A base record is the value of its name unless a later base record has
      the same name: form records never replace it. */
  lemma {:induction false} OverwriteWins(d: Dict<string, SpriteEntry>, ws: seq<Write>, i: int)
    requires 0 <= i < |ws| && ws[i].Overwrite?
    requires forall j :: i < j < |ws| && ws[j].Overwrite? ==> ws[j].key != ws[i].key
    ensures ws[i].key in ApplyAll(d, ws).vals && ApplyAll(d, ws).vals[ws[i].key] == ws[i].entry
    decreases |ws|
  {
    if i < |ws| - 1 {
      OverwriteWins(d, ws[..|ws| - 1], i);
    }
  }

  /** A key that only inserts write keeps its old value. */
  lemma {:induction false} InsertKeeps(d: Dict<string, SpriteEntry>, ws: seq<Write>, k: string)
    requires k in d.vals
    requires forall j :: 0 <= j < |ws| && ws[j].key == k ==> ws[j].Insert?
    ensures k in ApplyAll(d, ws).vals && ApplyAll(d, ws).vals[k] == d.vals[k]
    decreases |ws|
  {
    if ws != [] {
      InsertKeeps(d, ws[..|ws| - 1], k);
    }
  }

  /** A form record is the value of its name when its name was new, no
      earlier write used it and no later base record has it: the first
      insert wins. */
  lemma FirstInsertWins(d: Dict<string, SpriteEntry>, ws: seq<Write>, i: int)
    requires 0 <= i < |ws| && ws[i].Insert? && ws[i].key !in d.vals
    requires forall j :: 0 <= j < |ws| && j != i && ws[j].key == ws[i].key ==> j > i && ws[j].Insert?
    ensures ws[i].key in ApplyAll(d, ws).vals && ApplyAll(d, ws).vals[ws[i].key] == ws[i].entry
  {
    var k := ws[i].key;
    var before, after := ws[..i + 1], ws[i + 1..];
    assert ws == before + after;
    ApplyAllAppend(d, before, after);
    FirstInsertLands(d, ws, i);
    assert forall j :: 0 <= j < |after| && after[j].key == k ==> after[j].Insert? by {
      forall j | 0 <= j < |after| && after[j].key == k ensures after[j].Insert? {
        assert after[j] == ws[i + 1 + j];
      }
    }
    InsertKeeps(ApplyAll(d, before), after, k);
  }

  /** The first write of a new key lands: right after it the key holds its entry. */
  lemma FirstInsertLands(d: Dict<string, SpriteEntry>, ws: seq<Write>, i: int)
    requires 0 <= i < |ws| && ws[i].Insert? && ws[i].key !in d.vals
    requires forall j :: 0 <= j < i ==> ws[j].key != ws[i].key
    ensures ws[i].key in ApplyAll(d, ws[..i + 1]).vals && ApplyAll(d, ws[..i + 1]).vals[ws[i].key] == ws[i].entry
  {
    var before := ws[..i + 1];
    assert before[..i] == ws[..i];
    ApplyAllDomain(d, ws[..i], ws[i].key);
  }

  /** Every insert is for a form that is not excluded and carries the
      synthesised Black/White URLs in place of PokeAPI's `versions`. */
  predicate FormWrite(w: Write) {
    w.Insert? ==> !ExcludedForm(w.key) && w.entry.sprites.versions.BlackWhiteOnly?
  }

  predicate AllFormWrites(ws: seq<Write>) {
    forall j :: 0 <= j < |ws| ==> FormWrite(ws[j])
  }

  lemma {:induction false} FormWritesShape(baseId: int, infos: seq<FormInfo>, forms: map<int, FormRecord>)
    requires forall f :: f in infos ==> !ExcludedForm(f.name)
    ensures AllFormWrites(FormWrites(baseId, infos, forms))
    ensures forall j :: 0 <= j < |FormWrites(baseId, infos, forms)| ==> FormWrites(baseId, infos, forms)[j].Insert?
    decreases |infos|
  {
    if infos != [] {
      var info := infos[|infos| - 1];
      FormWritesShape(baseId, infos[..|infos| - 1], forms);
      if info.id in forms {
        assert FormWrite(Insert(info.name, FormEntry(baseId, info, forms[info.id])));
      }
    }
  }

  lemma {:induction false} VarietiesWritesShape(api: Api, ids: seq<int>)
    ensures AllFormWrites(VarietiesWrites(api, ids))
    decreases |ids|
  {
    if ids != [] {
      var id := ids[|ids| - 1];
      VarietiesWritesShape(api, ids[..|ids| - 1]);
      if id in api.pokemon {
        var p := api.pokemon[id];
        FormWritesShape(id, FormInfos(p.forms, api.formIds), api.forms);
      }
    }
  }

  lemma {:induction false} RangeWritesShape(api: Api, n: nat)
    requires Parsable(api) && n <= api.count
    ensures AllFormWrites(RangeWrites(api, n))
  {
    if n > 0 {
      RangeWritesShape(api, n - 1);
      if Kept(api, n) {
        VarietiesWritesShape(api, VarietyIds(api.species[n].varieties));
      }
    }
  }

  /** Every key of the result is the name of a base record or of a form that
      is not excluded, and every form record carries synthesised URLs. */
  lemma AllSpritesShape(api: Api)
    requires Parsable(api)
    ensures AllFormWrites(RangeWrites(api, api.count))
    ensures forall k :: k in AllSprites(api).vals <==> k in WriteKeys(RangeWrites(api, api.count))
  {
    RangeWritesShape(api, api.count);
    forall k ensures k in AllSprites(api).vals <==> k in WriteKeys(RangeWrites(api, api.count)) {
      ApplyAllDomain(Empty(), RangeWrites(api, api.count), k);
    }
  }
}
