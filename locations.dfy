/** generate_locations.py: the species → encounter-list dictionary built from
    the monster dump, and the patch that adds and removes encounters. */
module Locations {
  import opened Wrappers
  import opened Dicts
  import opened Dump

  /** `locations_data`: species key → its `locations` list. */
  type LocationData = Dict<string, seq<LocationEntry>>

  /** The patch file. `add` maps a species to entries to append, `remove` maps a
      species to the location strings to drop; either key may be missing. */
  datatype Patch = Patch(
    add: Option<seq<(string, seq<LocationEntry>)>>,
    remove: Option<seq<(string, seq<string>)>>)

  // ---------------------------------------------------------------------------
  // Building the dictionary from the dump
  // ---------------------------------------------------------------------------

  /** The assignments the loop performs, in order. */
  function LocationPairs(monsters: seq<Monster>): (ps: seq<(string, seq<LocationEntry>)>)
    ensures |ps| == |monsters|
    ensures forall i :: 0 <= i < |monsters| ==>
      ps[i] == (SpeciesKey(monsters[i].name), monsters[i].locations.GetOr([]))
  {
    seq(|monsters|, i requires 0 <= i < |monsters| =>
      (SpeciesKey(monsters[i].name), monsters[i].locations.GetOr([])))
  }

  /** The dictionary before patching: every monster stored under its species key. */
  method CompileLocations(monsters: seq<Monster>) returns (d: LocationData)
    ensures d == PutAll(Empty(), LocationPairs(monsters))
  {
    d := Empty();
    ghost var ps := LocationPairs(monsters);
    for i := 0 to |monsters|
      invariant d == PutAll(Empty(), ps[..i])
    {
      var key := SpeciesKey(monsters[i].name);
      assert ps[i] == (key, monsters[i].locations.GetOr([]));
      PutAllStep(Empty(), ps, i);
      d := Put(d, key, monsters[i].locations.GetOr([]));
    }
    assert ps[..|monsters|] == ps;
  }

  /** Keys are exactly the species keys of the monsters, and a species holds the
      locations of the last monster with that key. */
  lemma CompiledLocations(monsters: seq<Monster>, i: int)
    requires 0 <= i < |monsters|
    requires forall j :: i < j < |monsters| ==> SpeciesKey(monsters[j].name) != SpeciesKey(monsters[i].name)
    ensures var d := PutAll(Empty(), LocationPairs(monsters));
      && WellFormed(d)
      && (forall k :: k in d.vals <==> k in SpeciesKeys(monsters))
      && d.vals[SpeciesKey(monsters[i].name)] == monsters[i].locations.GetOr([])
  {
    var ps := LocationPairs(monsters);
    assert KeysOf(ps) == SpeciesKeys(monsters);
    PutAllDomain(Empty(), ps);
    PutAllLastWins(Empty(), ps, i);
  }

  // ---------------------------------------------------------------------------
  // The patch, as a function of the dictionary before it
  // ---------------------------------------------------------------------------

  /** The `add` loop: a missing species starts with `[]`, then the new entries are appended. */
  function AddLocations(d: LocationData, adds: seq<(string, seq<LocationEntry>)>): (r: LocationData)
    ensures WellFormed(d) ==> WellFormed(r)
    decreases |adds|
  {
    if adds == [] then d
    else
      var last := adds[|adds| - 1];
      Extend(AddLocations(d, adds[..|adds| - 1]), last.0, last.1)
  }

  /** The list comprehension of the `remove` loop: entries whose location is not removed. */
  function Kept(entries: seq<LocationEntry>, removed: seq<string>): seq<LocationEntry>
    decreases |entries|
  {
    if entries == [] then []
    else
      var last := entries[|entries| - 1];
      Kept(entries[..|entries| - 1], removed) + if last.location in removed then [] else [last]
  }

  /** One step of the `remove` loop. */
  function RemoveStep(d: LocationData, species: string, removed: seq<string>): (r: LocationData)
    ensures WellFormed(d) ==> WellFormed(r)
  {
    if species in d.vals then
      var filtered := Put(d, species, Kept(d.vals[species], removed));
      if filtered.vals[species] == [] then Remove(filtered, species) else filtered
    else d
  }

  function RemoveLocations(d: LocationData, removes: seq<(string, seq<string>)>): (r: LocationData)
    ensures WellFormed(d) ==> WellFormed(r)
    decreases |removes|
  {
    if removes == [] then d
    else
      var last := removes[|removes| - 1];
      RemoveStep(RemoveLocations(d, removes[..|removes| - 1]), last.0, last.1)
  }

  /** `apply_patch`: every addition first, then every removal. */
  function Patched(d: LocationData, p: Patch): LocationData {
    RemoveLocations(AddLocations(d, p.add.GetOr([])), p.remove.GetOr([]))
  }

  // ---------------------------------------------------------------------------
  // What the patch does
  // ---------------------------------------------------------------------------

  /** Kept entries are exactly the entries whose location is not removed. */
  lemma {:induction false} KeptMember(entries: seq<LocationEntry>, removed: seq<string>, e: LocationEntry)
    ensures e in Kept(entries, removed) <==> e in entries && e.location !in removed
    decreases |entries|
  {
    if entries != [] {
      var init := entries[..|entries| - 1];
      KeptMember(init, removed, e);
      assert entries == init + [entries[|entries| - 1]];
    }
  }

  /** Filtering keeps the relative order: it distributes over concatenation. */
  lemma {:induction false} KeptAppend(xs: seq<LocationEntry>, ys: seq<LocationEntry>, removed: seq<string>)
    ensures Kept(xs + ys, removed) == Kept(xs, removed) + Kept(ys, removed)
    decreases |ys|
  {
    if ys == [] {
      assert xs + ys == xs;
    } else {
      var all := xs + ys;
      assert all[..|all| - 1] == xs + ys[..|ys| - 1];
      KeptAppend(xs, ys[..|ys| - 1], removed);
    }
  }

  /** An added species holds its old list (or `[]`) followed by the new entries;
      species not named in `add` are untouched. */
  lemma {:induction false} AddLocationsAt(d: LocationData, adds: seq<(string, seq<LocationEntry>)>, k: string)
    requires Distinct(KeysOf(adds))
    ensures k in AddLocations(d, adds).vals <==> k in d.vals || k in KeysOf(adds)
    ensures k !in KeysOf(adds) && k in d.vals ==> AddLocations(d, adds).vals[k] == d.vals[k]
    ensures forall i :: 0 <= i < |adds| && adds[i].0 == k ==>
      AddLocations(d, adds).vals[k] == (if k in d.vals then d.vals[k] else []) + adds[i].1
    decreases |adds|
  {
    if adds != [] {
      var init := adds[..|adds| - 1];
      KeysOfSnoc(adds);
      assert Distinct(KeysOf(init)) by {
        assert KeysOf(init) == KeysOf(adds)[..|adds| - 1];
      }
      AddLocationsAt(d, init, k);
    }
  }

  /** A species named in `remove` and present keeps exactly its entries whose
      location is not removed, and is deleted when none remain; a species named
      in `remove` but absent stays absent; other species are untouched. */
  lemma {:induction false} RemoveLocationsAt(d: LocationData, removes: seq<(string, seq<string>)>, k: string)
    requires Distinct(KeysOf(removes))
    ensures k !in KeysOf(removes) ==>
      (k in RemoveLocations(d, removes).vals <==> k in d.vals)
      && (k in d.vals ==> RemoveLocations(d, removes).vals[k] == d.vals[k])
    ensures forall i :: 0 <= i < |removes| && removes[i].0 == k ==>
      var r := RemoveLocations(d, removes);
      && (k !in d.vals ==> k !in r.vals)
      && (k in d.vals ==> (k in r.vals <==> Kept(d.vals[k], removes[i].1) != []))
      && (k in r.vals ==> r.vals[k] == Kept(d.vals[k], removes[i].1))
    decreases |removes|
  {
    if removes != [] {
      var init := removes[..|removes| - 1];
      KeysOfSnoc(removes);
      assert Distinct(KeysOf(init)) by {
        assert KeysOf(init) == KeysOf(removes)[..|removes| - 1];
      }
      RemoveLocationsAt(d, init, k);
    }
  }

  /** A species named in neither `add` nor `remove` is unchanged by the patch. */
  lemma PatchedUntouched(d: LocationData, p: Patch, k: string)
    requires Distinct(KeysOf(p.add.GetOr([]))) && Distinct(KeysOf(p.remove.GetOr([])))
    requires k !in KeysOf(p.add.GetOr([])) && k !in KeysOf(p.remove.GetOr([]))
    ensures k in Patched(d, p).vals <==> k in d.vals
    ensures k in d.vals ==> Patched(d, p).vals[k] == d.vals[k]
  {
    AddLocationsAt(d, p.add.GetOr([]), k);
    RemoveLocationsAt(AddLocations(d, p.add.GetOr([])), p.remove.GetOr([]), k);
  }

  // ---------------------------------------------------------------------------
  // The patch, in place
  // ---------------------------------------------------------------------------

  /** `apply_patch(locations_data, patch_data)`. */
  method ApplyPatch(t: Table<string, seq<LocationEntry>>, p: Patch)
    requires t.Valid()
    modifies t
    ensures t.Valid() && t.View() == Patched(old(t.View()), p)
  {
    AddPatchLocations(t, p.add.GetOr([]));
    RemovePatchLocations(t, p.remove.GetOr([]));
  }

  /** The `add` loop of `apply_patch`. */
  method AddPatchLocations(t: Table<string, seq<LocationEntry>>, adds: seq<(string, seq<LocationEntry>)>)
    requires t.Valid()
    modifies t
    ensures t.Valid() && t.View() == AddLocations(old(t.View()), adds)
  {
    ghost var start := t.View();
    for i := 0 to |adds|
      invariant t.Valid() && t.View() == AddLocations(start, adds[..i])
    {
      var (species, entries) := adds[i];
      if species !in t.vals {
        t.Set(species, []);
      }
      t.Set(species, t.vals[species] + entries);
      assert adds[..i + 1][..i] == adds[..i];
    }
    assert adds[..|adds|] == adds;
  }

  /** The `remove` loop of `apply_patch`. */
  method RemovePatchLocations(t: Table<string, seq<LocationEntry>>, removes: seq<(string, seq<string>)>)
    requires t.Valid()
    modifies t
    ensures t.Valid() && t.View() == RemoveLocations(old(t.View()), removes)
  {
    ghost var start := t.View();
    for i := 0 to |removes|
      invariant t.Valid() && t.View() == RemoveLocations(start, removes[..i])
    {
      var (species, removed) := removes[i];
      if species in t.vals {
        t.Set(species, Kept(t.vals[species], removed));
        if t.vals[species] == [] {
          t.Delete(species);
        }
      }
      assert removes[..i + 1][..i] == removes[..i];
    }
    assert removes[..|removes|] == removes;
  }

  /** `generate_locations_json` without the file I/O: the compiled dictionary,
      patched when a patch file exists. */
  method GenerateLocations(monsters: seq<Monster>, patch: Option<Patch>) returns (d: LocationData)
    ensures WellFormed(d)
    ensures patch.None? ==> d == PutAll(Empty(), LocationPairs(monsters))
    ensures patch.Some? ==> d == Patched(PutAll(Empty(), LocationPairs(monsters)), patch.value)
  {
    d := CompileLocations(monsters);
    if patch.Some? {
      var t := new Table(d);
      ApplyPatch(t, patch.value);
      d := t.View();
    }
  }
}
