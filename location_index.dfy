/** generate_location_regions.py, generate_location_rarities.py and
    generate_location_types.py: the encounters of the location data set
    re-indexed by one of their fields. */
module LocationIndex {
  import opened Wrappers
  import opened Dicts

  /** An encounter; each indexed field is `None` when missing. */
  datatype Encounter = Encounter(
    regionName: Option<string>,
    rarity: Option<string>,
    encounterType: Option<string>,
    details: map<string, string>)

  /** A location record; a missing `encounters` list is the empty sequence. */
  datatype Location = Location(encounters: seq<Encounter>)

  type LocationData = Dict<string, Location>
  type Index = Dict<Option<string>, seq<Encounter>>

  /** The field an index is keyed by: `region_name`, `rarity` or `type`. */
  datatype Field = RegionName | Rarity | EncounterType

  function KeyOf(e: Encounter, f: Field): Option<string> {
    match f
    case RegionName => e.regionName
    case Rarity => e.rarity
    case EncounterType => e.encounterType
  }

  /** Every encounter, location by location in iteration order, then in list order. */
  function AllEncounters(ks: seq<string>, locations: map<string, Location>): seq<Encounter>
    decreases |ks|
  {
    if ks == [] then []
    else
      var k := ks[|ks| - 1];
      AllEncounters(ks[..|ks| - 1], locations) + if k in locations then locations[k].encounters else []
  }

  /** Each encounter paired with its key. */
  function KeyedBy(es: seq<Encounter>, f: Field): (ps: seq<(Option<string>, Encounter)>)
    ensures |ps| == |es|
    ensures forall i :: 0 <= i < |es| ==> ps[i] == (KeyOf(es[i], f), es[i])
  {
    seq(|es|, i requires 0 <= i < |es| => (KeyOf(es[i], f), es[i]))
  }

  /** The index the nested loop builds. */
  function Indexed(locations: LocationData, f: Field): Index {
    GroupAll(Empty(), KeyedBy(AllEncounters(locations.keys, locations.vals), f))
  }

  function EncounterCount(l: Location): nat {
    |l.encounters|
  }

  // ---------------------------------------------------------------------------
  // The loop
  // ---------------------------------------------------------------------------

  lemma GroupStep(d0: Index, es: seq<Encounter>, f: Field, j: int)
    requires 0 <= j < |es|
    ensures GroupAll(d0, KeyedBy(es[..j + 1], f)) == Extend(GroupAll(d0, KeyedBy(es[..j], f)), KeyOf(es[j], f), [es[j]])
  {
    var ps := KeyedBy(es[..j + 1], f);
    assert ps[..j] == KeyedBy(es[..j], f);
  }

  /** The inner loop: one location's encounters appended to their buckets. */
  method AddEncounters(d0: Index, es: seq<Encounter>, f: Field) returns (d: Index)
    ensures d == GroupAll(d0, KeyedBy(es, f))
  {
    d := d0;
    for j := 0 to |es|
      invariant d == GroupAll(d0, KeyedBy(es[..j], f))
    {
      ghost var prev := d;
      var key := KeyOf(es[j], f);
      if key !in d.vals {
        d := Put(d, key, []);
      }
      assert d.keys == (if key in prev.vals then prev.keys else prev.keys + [key]);
      assert d.vals[key] == if key in prev.vals then prev.vals[key] else [];
      d := Put(d, key, d.vals[key] + [es[j]]);
      assert d.vals == prev.vals[key := (if key in prev.vals then prev.vals[key] else []) + [es[j]]];
      GroupStep(d0, es, f, j);
    }
    assert es[..|es|] == es;
  }

  lemma IndexStep(locations: LocationData, f: Field, i: int)
    requires 0 <= i < |locations.keys|
    ensures var ks := locations.keys;
      var es := if ks[i] in locations.vals then locations.vals[ks[i]].encounters else [];
      GroupAll(Empty(), KeyedBy(AllEncounters(ks[..i + 1], locations.vals), f))
        == GroupAll(GroupAll(Empty(), KeyedBy(AllEncounters(ks[..i], locations.vals), f)), KeyedBy(es, f))
  {
    var ks := locations.keys;
    var done := AllEncounters(ks[..i], locations.vals);
    var es := if ks[i] in locations.vals then locations.vals[ks[i]].encounters else [];
    assert ks[..i + 1][..i] == ks[..i];
    assert AllEncounters(ks[..i + 1], locations.vals) == done + es;
    assert KeyedBy(done + es, f) == KeyedBy(done, f) + KeyedBy(es, f);
    GroupAllAppend(Empty(), KeyedBy(done, f), KeyedBy(es, f));
  }

  /** The nested loop shared by the three scripts. */
  method GroupEncounters(locations: LocationData, f: Field) returns (d: Index)
    ensures d == Indexed(locations, f)
  {
    d := Empty();
    var ks := locations.keys;
    for i := 0 to |ks|
      invariant d == GroupAll(Empty(), KeyedBy(AllEncounters(ks[..i], locations.vals), f))
    {
      var es := if ks[i] in locations.vals then locations.vals[ks[i]].encounters else [];
      d := AddEncounters(d, es, f);
      IndexStep(locations, f, i);
    }
    assert ks[..|ks|] == ks;
  }

  /** `generate_region_data`. */
  method GenerateRegionData(locations: LocationData) returns (d: Index)
    ensures d == Indexed(locations, RegionName)
  {
    d := GroupEncounters(locations, RegionName);
  }

  /** `generate_rarity_data`. */
  method GenerateRarityData(locations: LocationData) returns (d: Index)
    ensures d == Indexed(locations, Rarity)
  {
    d := GroupEncounters(locations, Rarity);
  }

  /** `generate_type_data`. */
  method GenerateTypeData(locations: LocationData) returns (d: Index)
    ensures d == Indexed(locations, EncounterType)
  {
    d := GroupEncounters(locations, EncounterType);
  }

  // ---------------------------------------------------------------------------
  // What the index holds
  // ---------------------------------------------------------------------------

  /** Each encounter is in the bucket of its own key as often as it occurs in
      the input, and in no other bucket. */
  lemma {:induction false} BucketCount(es: seq<Encounter>, f: Field, k: Option<string>, e: Encounter)
    ensures multiset(ValuesAt(KeyedBy(es, f), k))[e] == if KeyOf(e, f) == k then multiset(es)[e] else 0
    decreases |es|
  {
    if es != [] {
      var init := es[..|es| - 1];
      assert KeyedBy(es, f)[..|es| - 1] == KeyedBy(init, f);
      assert es == init + [es[|es| - 1]];
      BucketCount(init, f, k, e);
    }
  }

  /** The keys are exactly the values of the field among the encounters, and
      each bucket holds the encounters with that value, in input order. */
  lemma IndexedAt(locations: LocationData, f: Field, k: Option<string>)
    ensures var es := AllEncounters(locations.keys, locations.vals);
      && (k in Indexed(locations, f).vals <==> exists i :: 0 <= i < |es| && KeyOf(es[i], f) == k)
      && (k in Indexed(locations, f).vals ==> Indexed(locations, f).vals[k] == ValuesAt(KeyedBy(es, f), k))
  {
    var es := AllEncounters(locations.keys, locations.vals);
    var ps := KeyedBy(es, f);
    var d: Index := Empty();
    assert Indexed(locations, f) == GroupAll(d, ps);
    assert k !in d.vals;
    GroupAllAt(d, ps, k);
    assert k in KeysOf(ps) <==> exists i :: 0 <= i < |es| && KeyOf(es[i], f) == k by {
      if exists i :: 0 <= i < |es| && KeyOf(es[i], f) == k {
        var i :| 0 <= i < |es| && KeyOf(es[i], f) == k;
        assert KeysOf(ps)[i] == k;
      }
    }
  }

  lemma {:induction false} AllEncountersCount(ks: seq<string>, locations: map<string, Location>)
    ensures |AllEncounters(ks, locations)| == SumOver(ks, locations, EncounterCount)
    decreases |ks|
  {
    if ks != [] {
      AllEncountersCount(ks[..|ks| - 1], locations);
    }
  }

  /** The bucket sizes add up to the number of encounters in the input; a
      location without encounters contributes nothing. */
  lemma IndexedTotal(locations: LocationData, f: Field)
    ensures Total(Indexed(locations, f), Len) == Total(locations, EncounterCount)
  {
    var es := AllEncounters(locations.keys, locations.vals);
    GroupAllTotal(Empty(), KeyedBy(es, f));
    AllEncountersCount(locations.keys, locations.vals);
  }
}
