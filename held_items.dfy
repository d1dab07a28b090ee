/** generate_held_items.py: the dump's items merged into the item data set,
    and the two-way cross-reference between Pokémon and the items they hold. */
module HeldItems {
  import opened Wrappers
  import opened Text
  import opened Dicts
  import opened Dump

  /** An entry of a Pokémon's `held_items` list. */
  datatype HeldItem = HeldItem(id: int, itemName: string)

  /** A Pokémon data set record: its `held_items` (absent until first filled)
      and its other fields, kept verbatim. */
  datatype PokemonEntry = PokemonEntry(heldItems: Option<seq<HeldItem>>, fields: map<string, string>)

  /** An entry of an item's `pokemon_with_item` list. */
  datatype Holder = Holder(name: string, id: int)

  /** `process_item_data`: exactly these four fields. */
  datatype ProcessedItem = ProcessedItem(id: Option<int>, name: string, effect: Option<string>, sprite: Option<int>)

  /** The fields of an item data set record other than `pokemon_with_item`: as
      read from the item data file, as produced by `process_item_data`, or as
      created for an item that only a monster mentions. */
  datatype ItemInfo =
    | Stored(fields: map<string, string>)
    | FromDump(item: ProcessedItem)
    | Discovered(id: int, name: string)

  datatype ItemEntry = ItemEntry(info: ItemInfo, pokemonWithItem: Option<seq<Holder>>)

  type PokemonData = Dict<string, PokemonEntry>
  type ItemData = Dict<string, ItemEntry>

  // ---------------------------------------------------------------------------
  // Items of the dump
  // ---------------------------------------------------------------------------

  /** `process_item_data`: copies `id` and `name`, renames `desc` to `effect` and
      `icon_id` to `sprite`. */
  function ProcessItemData(raw: DumpItem): (p: ProcessedItem)
    ensures p.id == raw.id && p.name == raw.name
    ensures p.effect == raw.desc && p.sprite == raw.iconId
  {
    ProcessedItem(raw.id, raw.name, raw.desc, raw.iconId)
  }

  function ItemPairs(items: seq<DumpItem>): (ps: seq<(string, ProcessedItem)>)
    ensures |ps| == |items|
    ensures forall i :: 0 <= i < |items| ==> ps[i] == (Slug(items[i].name), ProcessItemData(items[i]))
  {
    seq(|items|, i requires 0 <= i < |items| => (Slug(items[i].name), ProcessItemData(items[i])))
  }

  /** `process_items`: every dump item stored under the slug of its name. */
  method ProcessItems(items: seq<DumpItem>) returns (d: Dict<string, ProcessedItem>)
    ensures d == PutAll(Empty(), ItemPairs(items))
  {
    d := Empty();
    ghost var ps := ItemPairs(items);
    for i := 0 to |items|
      invariant d == PutAll(Empty(), ps[..i])
    {
      var processed := ProcessItemData(items[i]);
      d := Put(d, Slug(processed.name), processed);
      PutAllStep(Empty(), ps, i);
    }
    assert ps[..|items|] == ps;
  }

  function ItemSlugs(items: seq<DumpItem>): (ks: seq<string>)
    ensures |ks| == |items|
    ensures forall i :: 0 <= i < |items| ==> ks[i] == Slug(items[i].name)
  {
    seq(|items|, i requires 0 <= i < |items| => Slug(items[i].name))
  }

  /** The keys are the slugs of the item names, and a later item with the same
      slug overwrites an earlier one. */
  lemma ProcessedItemsAt(items: seq<DumpItem>, i: int)
    requires 0 <= i < |items|
    requires forall j :: i < j < |items| ==> Slug(items[j].name) != Slug(items[i].name)
    ensures var d := PutAll(Empty(), ItemPairs(items));
      && WellFormed(d)
      && (forall k :: k in d.vals <==> k in ItemSlugs(items))
      && d.vals[Slug(items[i].name)] == ProcessItemData(items[i])
  {
    var ps := ItemPairs(items);
    assert KeysOf(ps) == ItemSlugs(items);
    PutAllDomain(Empty(), ps);
    PutAllLastWins(Empty(), ps, i);
  }

  /** The entries `main` offers to the item data set, in the order of `processed`. */
  function MergePairs(processed: Dict<string, ProcessedItem>): (ps: seq<(string, ItemEntry)>)
    requires WellFormed(processed)
    ensures KeysOf(ps) == processed.keys
    ensures forall i :: 0 <= i < |ps| ==>
      ps[i].1 == ItemEntry(FromDump(processed.vals[processed.keys[i]]), None)
  {
    seq(|processed.keys|, i requires 0 <= i < |processed.keys| =>
      (processed.keys[i], ItemEntry(FromDump(processed.vals[processed.keys[i]]), None)))
  }

  /** The loop of `main` that adds the dump's items missing from the item data set. */
  method MergeProcessedItems(t: Table<string, ItemEntry>, processed: Dict<string, ProcessedItem>)
    requires t.Valid() && WellFormed(processed)
    modifies t
    ensures t.Valid() && t.View() == PutAllAbsent(old(t.View()), MergePairs(processed))
  {
    ghost var start := t.View();
    ghost var ps := MergePairs(processed);
    for i := 0 to |processed.keys|
      invariant t.Valid() && t.View() == PutAllAbsent(start, ps[..i])
    {
      var name := processed.keys[i];
      if name !in t.vals {
        t.Set(name, ItemEntry(FromDump(processed.vals[name]), None));
      }
      assert ps[..i + 1][..i] == ps[..i];
    }
    assert ps[..|processed.keys|] == ps;
  }

  /** The merge never overwrites an item already in the data set, and a missing
      item gets the dump's processed record. */
  lemma MergeAt(d: ItemData, processed: Dict<string, ProcessedItem>, k: string)
    requires WellFormed(processed)
    ensures k in PutAllAbsent(d, MergePairs(processed)).vals <==> k in d.vals || k in processed.vals
    ensures k in d.vals ==> PutAllAbsent(d, MergePairs(processed)).vals[k] == d.vals[k]
    ensures k !in d.vals && k in processed.vals ==>
      PutAllAbsent(d, MergePairs(processed)).vals[k] == ItemEntry(FromDump(processed.vals[k]), None)
  {
    var ps := MergePairs(processed);
    PutAllAbsentDomain(d, ps);
    if k in d.vals {
      PutAllAbsentKeeps(d, ps, k);
    } else if k in processed.vals {
      var i :| 0 <= i < |processed.keys| && processed.keys[i] == k;
      PutAllAbsentFirstWins(d, ps, i);
    }
  }

  // ---------------------------------------------------------------------------
  // Pokémon → held items
  // ---------------------------------------------------------------------------

  /** The `held_items` list built for one monster, in the monster's order. */
  function HeldList(m: Monster): (hs: seq<HeldItem>)
    ensures |hs| == |m.heldItems.GetOr([])|
    ensures forall i :: 0 <= i < |hs| ==>
      hs[i] == HeldItem(m.heldItems.GetOr([])[i].id, Slug(m.heldItems.GetOr([])[i].name))
  {
    var refs := m.heldItems.GetOr([]);
    seq(|refs|, i requires 0 <= i < |refs| => HeldItem(refs[i].id, Slug(refs[i].name)))
  }

  function HeldStep(d: PokemonData, m: Monster): PokemonData {
    var k := SpeciesKey(m.name);
    if k in d.vals then Put(d, k, d.vals[k].(heldItems := Some(HeldList(m)))) else d
  }

  function HeldAll(d: PokemonData, monsters: seq<Monster>): PokemonData
    decreases |monsters|
  {
    if monsters == [] then d
    else HeldStep(HeldAll(d, monsters[..|monsters| - 1]), monsters[|monsters| - 1])
  }

  /** `update_pokemon_with_held_items`. */
  method UpdatePokemonWithHeldItems(t: Table<string, PokemonEntry>, monsters: seq<Monster>)
    requires t.Valid()
    modifies t
    ensures t.Valid() && t.View() == HeldAll(old(t.View()), monsters)
  {
    ghost var start := t.View();
    for i := 0 to |monsters|
      invariant t.Valid() && t.View() == HeldAll(start, monsters[..i])
    {
      var m := monsters[i];
      var name := SpeciesKey(m.name);
      if name in t.vals {
        SetHeldItems(t, name, m);
      }
      assert monsters[..i + 1][..i] == monsters[..i];
    }
    assert monsters[..|monsters|] == monsters;
  }

  /** The body of the loop for a Pokémon in the data set: `held_items` reset,
      then one `{id, name}` appended per item of the monster. */
  method SetHeldItems(t: Table<string, PokemonEntry>, name: string, m: Monster)
    requires t.Valid() && name in t.vals
    modifies t
    ensures t.Valid() && t.View() == Put(old(t.View()), name, old(t.vals[name]).(heldItems := Some(HeldList(m))))
  {
    ghost var before := t.View();
    t.Set(name, t.vals[name].(heldItems := Some([])));
    var refs := m.heldItems.GetOr([]);
    for j := 0 to |refs|
      invariant t.Valid()
      invariant t.View() == Put(before, name, before.vals[name].(heldItems := Some(HeldList(m)[..j])))
    {
      var entry := t.vals[name];
      assert entry.heldItems.value == HeldList(m)[..j];
      assert HeldList(m)[..j + 1] == HeldList(m)[..j] + [HeldItem(refs[j].id, Slug(refs[j].name))];
      t.Set(name, entry.(heldItems := Some(entry.heldItems.value + [HeldItem(refs[j].id, Slug(refs[j].name))])));
    }
    assert HeldList(m)[..|refs|] == HeldList(m);
  }

  /** Only existing Pokémon change, and only their `held_items`; the key order
      is unchanged and a Pokémon no monster names keeps its entry. */
  lemma {:induction false} HeldAllAt(d: PokemonData, monsters: seq<Monster>, k: string)
    ensures HeldAll(d, monsters).keys == d.keys
    ensures k in HeldAll(d, monsters).vals <==> k in d.vals
    ensures k in d.vals ==> HeldAll(d, monsters).vals[k].fields == d.vals[k].fields
    ensures k in d.vals && k !in SpeciesKeys(monsters) ==> HeldAll(d, monsters).vals[k] == d.vals[k]
    decreases |monsters|
  {
    if monsters != [] {
      var init := monsters[..|monsters| - 1];
      assert SpeciesKeys(monsters) == SpeciesKeys(init) + [SpeciesKey(monsters[|monsters| - 1].name)];
      HeldAllAt(d, init, k);
    }
  }

  /** An existing Pokémon's `held_items` is the list of the last monster with
      its species key. */
  lemma {:induction false} HeldAllLastWins(d: PokemonData, monsters: seq<Monster>, i: int)
    requires 0 <= i < |monsters| && SpeciesKey(monsters[i].name) in d.vals
    requires forall j :: i < j < |monsters| ==> SpeciesKey(monsters[j].name) != SpeciesKey(monsters[i].name)
    ensures SpeciesKey(monsters[i].name) in HeldAll(d, monsters).vals
    ensures HeldAll(d, monsters).vals[SpeciesKey(monsters[i].name)].heldItems == Some(HeldList(monsters[i]))
    decreases |monsters|
  {
    var k := SpeciesKey(monsters[i].name);
    var init := monsters[..|monsters| - 1];
    HeldAllAt(d, init, k);
    if i < |monsters| - 1 {
      assert init[i] == monsters[i];
      HeldAllLastWins(d, init, i);
    }
  }

  // ---------------------------------------------------------------------------
  // Items → Pokémon holding them
  // ---------------------------------------------------------------------------

  /** The (holder, item reference) pairs of one monster, in its item order. */
  function RefsOf(m: Monster): (rs: seq<(Holder, HeldRef)>)
    ensures |rs| == |m.heldItems.GetOr([])|
    ensures forall i :: 0 <= i < |rs| ==> rs[i] == (Holder(SpeciesKey(m.name), m.id), m.heldItems.GetOr([])[i])
  {
    var refs := m.heldItems.GetOr([]);
    seq(|refs|, i requires 0 <= i < |refs| => (Holder(SpeciesKey(m.name), m.id), refs[i]))
  }

  /** Every (holder, item reference) pair, monster by monster. */
  function Refs(monsters: seq<Monster>): seq<(Holder, HeldRef)>
    decreases |monsters|
  {
    if monsters == [] then []
    else Refs(monsters[..|monsters| - 1]) + RefsOf(monsters[|monsters| - 1])
  }

  /** One step of the inner loop of `update_items_with_pokemon`. */
  function CrossStep(d: ItemData, holder: Holder, ref: HeldRef): (r: ItemData)
    ensures WellFormed(d) ==> WellFormed(r)
  {
    var slug := Slug(ref.name);
    if slug in d.vals then
      Put(d, slug, d.vals[slug].(pokemonWithItem := Some(d.vals[slug].pokemonWithItem.GetOr([]) + [holder])))
    else
      Put(d, slug, ItemEntry(Discovered(ref.id, slug), Some([holder])))
  }

  function CrossAll(d: ItemData, rs: seq<(Holder, HeldRef)>): (r: ItemData)
    ensures WellFormed(d) ==> WellFormed(r)
    decreases |rs|
  {
    if rs == [] then d
    else CrossStep(CrossAll(d, rs[..|rs| - 1]), rs[|rs| - 1].0, rs[|rs| - 1].1)
  }

  /** Folding over two runs of references is folding over the first, then the second. */
  lemma {:induction false} CrossAllAppend(d: ItemData, xs: seq<(Holder, HeldRef)>, ys: seq<(Holder, HeldRef)>)
    ensures CrossAll(d, xs + ys) == CrossAll(CrossAll(d, xs), ys)
    decreases |ys|
  {
    if ys == [] {
      assert xs + ys == xs;
    } else {
      var all := xs + ys;
      assert all[..|all| - 1] == xs + ys[..|ys| - 1];
      CrossAllAppend(d, xs, ys[..|ys| - 1]);
    }
  }

  /** The inner loop of `update_items_with_pokemon`: one monster's held items. */
  method AddHolder(t: Table<string, ItemEntry>, m: Monster)
    requires t.Valid()
    modifies t
    ensures t.Valid() && t.View() == CrossAll(old(t.View()), RefsOf(m))
  {
    ghost var start := t.View();
    var holder := Holder(SpeciesKey(m.name), m.id);
    var refs := m.heldItems.GetOr([]);
    for j := 0 to |refs|
      invariant t.Valid() && t.View() == CrossAll(start, RefsOf(m)[..j])
    {
      var slug := Slug(refs[j].name);
      if slug in t.vals {
        var entry := t.vals[slug];
        t.Set(slug, entry.(pokemonWithItem := Some(entry.pokemonWithItem.GetOr([]) + [holder])));
      } else {
        t.Set(slug, ItemEntry(Discovered(refs[j].id, slug), Some([holder])));
      }
      assert RefsOf(m)[..j + 1][..j] == RefsOf(m)[..j];
    }
    assert RefsOf(m)[..|refs|] == RefsOf(m);
  }

  /** `update_items_with_pokemon`. */
  method UpdateItemsWithPokemon(t: Table<string, ItemEntry>, monsters: seq<Monster>)
    requires t.Valid()
    modifies t
    ensures t.Valid() && t.View() == CrossAll(old(t.View()), Refs(monsters))
  {
    ghost var start := t.View();
    for i := 0 to |monsters|
      invariant t.Valid() && t.View() == CrossAll(start, Refs(monsters[..i]))
    {
      AddHolder(t, monsters[i]);
      assert monsters[..i + 1][..i] == monsters[..i];
      CrossAllAppend(start, Refs(monsters[..i]), RefsOf(monsters[i]));
    }
    assert monsters[..|monsters|] == monsters;
  }

  /** The slug of each reference paired with its holder. */
  function SlugPairs(rs: seq<(Holder, HeldRef)>): (ps: seq<(string, Holder)>)
    ensures |ps| == |rs|
    ensures forall i :: 0 <= i < |rs| ==> ps[i] == (Slug(rs[i].1.name), rs[i].0)
  {
    seq(|rs|, i requires 0 <= i < |rs| => (Slug(rs[i].1.name), rs[i].0))
  }

  function OldHolders(d: ItemData, slug: string): seq<Holder> {
    if slug in d.vals then d.vals[slug].pokemonWithItem.GetOr([]) else []
  }

  /** Each item's `pokemon_with_item` is its old list (or `[]`) followed by one
      holder per reference to it, in input order; an item nobody references is
      untouched; an item present before keeps its other fields. */
  lemma {:induction false} CrossAllHolders(d: ItemData, rs: seq<(Holder, HeldRef)>, slug: string)
    ensures slug in CrossAll(d, rs).vals <==> slug in d.vals || slug in KeysOf(SlugPairs(rs))
    ensures slug in KeysOf(SlugPairs(rs)) ==>
      CrossAll(d, rs).vals[slug].pokemonWithItem == Some(OldHolders(d, slug) + ValuesAt(SlugPairs(rs), slug))
    ensures slug !in KeysOf(SlugPairs(rs)) ==> ValuesAt(SlugPairs(rs), slug) == []
    ensures slug !in KeysOf(SlugPairs(rs)) && slug in d.vals ==> CrossAll(d, rs).vals[slug] == d.vals[slug]
    ensures slug in d.vals ==> CrossAll(d, rs).vals[slug].info == d.vals[slug].info
    decreases |rs|
  {
    if rs != [] {
      var init := rs[..|rs| - 1];
      var (h, ref) := rs[|rs| - 1];
      assert SlugPairs(rs)[..|rs| - 1] == SlugPairs(init);
      KeysOfSnoc(SlugPairs(rs));
      CrossAllHolders(d, init, slug);
      var before := CrossAll(d, init);
      assert CrossAll(d, rs) == CrossStep(before, h, ref);
      CrossStepAt(before, h, ref, slug);
      if Slug(ref.name) == slug {
        assert ValuesAt(SlugPairs(rs), slug) == ValuesAt(SlugPairs(init), slug) + [h];
        if slug !in KeysOf(SlugPairs(init)) {
          assert OldHolders(d, slug) + [] == OldHolders(d, slug);
        }
        assert OldHolders(before, slug) == OldHolders(d, slug) + ValuesAt(SlugPairs(init), slug);
        assert OldHolders(d, slug) + ValuesAt(SlugPairs(rs), slug)
          == (OldHolders(d, slug) + ValuesAt(SlugPairs(init), slug)) + [h];
      } else {
        assert ValuesAt(SlugPairs(rs), slug) == ValuesAt(SlugPairs(init), slug);
      }
    }
  }

  /** What one reference does to one item. */
  lemma CrossStepAt(before: ItemData, h: Holder, ref: HeldRef, slug: string)
    ensures var after := CrossStep(before, h, ref);
      && (slug in after.vals <==> slug in before.vals || Slug(ref.name) == slug)
      && (Slug(ref.name) == slug ==> after.vals[slug].pokemonWithItem == Some(OldHolders(before, slug) + [h]))
      && (Slug(ref.name) != slug && slug in before.vals ==> after.vals[slug] == before.vals[slug])
      && (slug in before.vals ==> after.vals[slug].info == before.vals[slug].info)
  {
    if Slug(ref.name) == slug && slug !in before.vals {
      assert OldHolders(before, slug) + [h] == [h];
    }
  }

  /** An item created by the cross-referencing takes its id from the first
      reference to it, and its name is the slug. */
  lemma {:induction false} CrossAllDiscovered(d: ItemData, rs: seq<(Holder, HeldRef)>, i: int)
    requires 0 <= i < |rs| && Slug(rs[i].1.name) !in d.vals
    requires forall j :: 0 <= j < i ==> Slug(rs[j].1.name) != Slug(rs[i].1.name)
    ensures Slug(rs[i].1.name) in CrossAll(d, rs).vals
    ensures CrossAll(d, rs).vals[Slug(rs[i].1.name)].info == Discovered(rs[i].1.id, Slug(rs[i].1.name))
    decreases |rs|
  {
    var init := rs[..|rs| - 1];
    var slug := Slug(rs[i].1.name);
    if i == |rs| - 1 {
      CrossAllHolders(d, init, slug);
      assert slug !in KeysOf(SlugPairs(init));
    } else {
      CrossAllDiscovered(d, init, i);
    }
  }

  /** Each item's list grows by exactly the number of references to it, so the
      growth over all items adds up to the number of (monster, held item) pairs. */
  lemma HolderGrowth(d: ItemData, rs: seq<(Holder, HeldRef)>, slug: string)
    requires slug in CrossAll(d, rs).vals
    ensures |CrossAll(d, rs).vals[slug].pokemonWithItem.GetOr([])| - |OldHolders(d, slug)|
      == multiset(KeysOf(SlugPairs(rs)))[slug]
    ensures |multiset(KeysOf(SlugPairs(rs)))| == |rs|
  {
    CrossAllHolders(d, rs, slug);
    ValuesAtCount(SlugPairs(rs), slug);
  }

  /** The number of Pokémon listed with an item (`[]` when it has no list yet). */
  function HolderCount(e: ItemEntry): nat {
    |e.pokemonWithItem.GetOr([])|
  }

  /** Taken over all items, the `pokemon_with_item` lists grow by exactly the
      number of (monster, held item) pairs. */
  lemma {:induction false} HoldersTotal(d: ItemData, rs: seq<(Holder, HeldRef)>)
    requires WellFormed(d)
    ensures Total(CrossAll(d, rs), HolderCount) == Total(d, HolderCount) + |rs|
    decreases |rs|
  {
    if rs != [] {
      var init := rs[..|rs| - 1];
      HoldersTotal(d, init);
      var before := CrossAll(d, init);
      var h, ref := rs[|rs| - 1].0, rs[|rs| - 1].1;
      var slug := Slug(ref.name);
      PutTotal(before, HolderCount, slug, CrossStep(before, h, ref).vals[slug]);
    }
  }

  // ---------------------------------------------------------------------------
  // main
  // ---------------------------------------------------------------------------

  /** `main` without the file I/O: merge the dump's items, then fill both
      cross-references. */
  method UpdateHeldItemData(
    pokemon: Table<string, PokemonEntry>, items: Table<string, ItemEntry>,
    monsters: seq<Monster>, rawItems: seq<DumpItem>)
    requires pokemon.Valid() && items.Valid()
    modifies pokemon, items
    ensures pokemon.Valid() && items.Valid()
    ensures pokemon.View() == HeldAll(old(pokemon.View()), monsters)
    ensures items.View() ==
      CrossAll(PutAllAbsent(old(items.View()), MergePairs(PutAll(Empty(), ItemPairs(rawItems)))), Refs(monsters))
  {
    var processed := ProcessItems(rawItems);
    MergeProcessedItems(items, processed);
    UpdatePokemonWithHeldItems(pokemon, monsters);
    UpdateItemsWithPokemon(items, monsters);
  }
}
