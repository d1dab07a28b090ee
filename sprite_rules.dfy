/** download_PokeAPI_sprites.py, the naming rules: which varieties and forms
    are excluded, how an id is read from a PokeAPI URL, the file-name stem of
    a form, and the Black/White sprite URLs synthesised for it. */
module SpriteRules {
  import opened Wrappers
  import opened Text

  /** The patterns `process_varieties` excludes. */
  const VarietyPatterns: seq<string> := [
    "-mega", "-gmax", "-alola", "-hisui", "-galar", "-rock-star", "-belle", "-pop-star", "-phd",
    "-libre", "-cosplay", "-original-cap", "-hoenn-cap", "-sinnoh-cap", "-unova-cap", "-kalos-cap",
    "-partner-cap", "-starter", "-world-cap", "-primal", "-paldea", "-totem",
    "palkia-origin", "dialga-origin", "basculin-white-striped"]

  /** `EXCLUDED_VARIATION_PATTERNS`, which `process_forms` excludes. */
  const ExcludedVariationPatterns: seq<string> := [
    "-mega", "-gmax", "-alola", "-hisui", "-galar", "-rock-star", "-belle", "-pop-star", "-phd",
    "-libre", "-cosplay", "-original-cap", "-hoenn-cap", "-sinnoh-cap", "-unova-cap", "-kalos-cap",
    "-partner-cap", "-starter", "-world-cap", "-primal", "-paldea", "-totem",
    "palkia-origin", "dialga-origin", "basculin-white-striped",
    "unown-a", "arceus-normal", "arceus-unknown", "arceus-fairy", "mothim-plant", "pichu-spiky-eared",
    "burmy-plant", "cherrim-overcast", "shellos-west", "gastrodon-west", "deerling-spring",
    "sawsbuck-spring"]

  predicate ExcludedVariety(name: string) {
    ContainsAny(name, VarietyPatterns)
  }

  predicate ExcludedForm(name: string) {
    ContainsAny(name, ExcludedVariationPatterns)
  }

  /** The variety patterns are the first 25 of the 37 form patterns, so a
      name excluded as a variety is also excluded as a form. */
  lemma VarietyExclusionImpliesForm(name: string)
    ensures |VarietyPatterns| == 25 && |ExcludedVariationPatterns| == 37
    ensures VarietyPatterns == ExcludedVariationPatterns[..25]
    ensures ExcludedVariety(name) ==> ExcludedForm(name)
  {
    assert VarietyPatterns == ExcludedVariationPatterns[..25];
    if ExcludedVariety(name) {
      var j :| 0 <= j < |VarietyPatterns| && Contains(name, VarietyPatterns[j]);
      assert ExcludedVariationPatterns[j] == VarietyPatterns[j];
    }
  }

  /** Exclusion is a substring test: a name is excluded iff some pattern
      occurs in it at some position. */
  lemma ExcludedFormIff(name: string)
    ensures ExcludedForm(name) <==>
      exists j, i :: 0 <= j < |ExcludedVariationPatterns| && OccursAt(name, ExcludedVariationPatterns[j], i)
  {
    if ExcludedForm(name) {
      var j :| 0 <= j < |ExcludedVariationPatterns| && Contains(name, ExcludedVariationPatterns[j]);
      ContainsIff(name, ExcludedVariationPatterns[j]);
    }
    if exists j, i :: 0 <= j < |ExcludedVariationPatterns| && OccursAt(name, ExcludedVariationPatterns[j], i) {
      var j, i :| 0 <= j < |ExcludedVariationPatterns| && OccursAt(name, ExcludedVariationPatterns[j], i);
      ContainsIff(name, ExcludedVariationPatterns[j]);
    }
  }

  // ---------------------------------------------------------------------------
  // Ids in URLs: `int(url.split("/")[-2])`
  // ---------------------------------------------------------------------------

  /** The integer in the second-to-last `/`-separated segment; `None` where
      the source raises (fewer than two segments, or a segment that is not an
      integer). */
  function UrlId(url: string): (r: Option<int>)
    ensures var parts := Split(url, '/');
      r.Some? ==> |parts| >= 2 && ParseInt(parts[|parts| - 2]) == r
  {
    var parts := Split(url, '/');
    if |parts| < 2 then None else ParseInt(parts[|parts| - 2])
  }

  /** A PokeAPI resource URL `<base>/<n>/` gives back `n`. */
  lemma UrlIdOf(base: string, n: nat)
    ensures UrlId(base + "/" + NatToString(n) + "/") == Some(n)
  {
    var digits := NatToString(n);
    assert '/' !in digits;
    var url := base + "/" + digits + "/";
    assert url == base + ['/'] + (digits + ['/'] + "");
    SplitAppend(base, '/', digits + ['/'] + "");
    SplitAppend(digits, '/', "");
    SplitNoSep(digits, '/');
    assert Split("", '/') == [""];
    assert Split(url, '/') == Split(base, '/') + [digits] + [""];
    ParseIntRoundTrip(n);
  }

  /** `is_in_first_five_generations` on a species whose generation URL was fetched. */
  predicate InFirstFiveGenerations(generationUrl: string) {
    UrlId(generationUrl).Some? && 1 <= UrlId(generationUrl).value <= 5
  }

  lemma InFirstFiveGenerationsOf(base: string, n: nat)
    ensures InFirstFiveGenerations(base + "/" + NatToString(n) + "/") <==> 1 <= n <= 5
  {
    UrlIdOf(base, n);
  }

  // ---------------------------------------------------------------------------
  // The file-name stem
  // ---------------------------------------------------------------------------

  /** The base Pokémon's id, followed by `-` and what follows the first hyphen
      of the form name when it has one. */
  function FileStem(baseId: int, formName: string): string {
    IntToString(baseId) + if '-' in formName then "-" + AfterFirst(formName, '-') else ""
  }

  lemma FileStemOf(baseId: int, head: string, tail: string)
    requires '-' !in head
    ensures FileStem(baseId, head) == IntToString(baseId)
    ensures FileStem(baseId, head + "-" + tail) == IntToString(baseId) + "-" + tail
  {
    assert head + "-" + tail == head + ['-'] + tail;
    AfterFirstOf(head, '-', tail);
  }

  // ---------------------------------------------------------------------------
  // Synthesised Black/White sprite URLs
  // ---------------------------------------------------------------------------

  /** One of the eight sprite slots, e.g. `back_shiny_female`. */
  datatype Slot = Slot(back: bool, shiny: bool, female: bool)

  /** The slots in the order the source lists them. */
  const AllSlots: seq<Slot> := [
    Slot(true, false, false), Slot(true, false, true), Slot(true, true, false), Slot(true, true, true),
    Slot(false, false, false), Slot(false, false, true), Slot(false, true, false), Slot(false, true, true)]

  /** The sprite key the slot is named after. */
  function SlotKey(s: Slot): string {
    (if s.back then "back_" else "front_")
      + if s.shiny && s.female then "shiny_female" else if s.shiny then "shiny" else if s.female then "female" else "default"
  }

  /** The directories of the slot below `black-white/` (or `black-white/animated/`). */
  function SlotPath(s: Slot): string {
    (if s.back then "back/" else "") + (if s.shiny then "shiny/" else "") + (if s.female then "female/" else "")
  }

  const BlackWhitePrefix: string :=
    "https://raw.githubusercontent.com/PokeAPI/sprites/master/sprites/pokemon/versions/generation-v/black-white/"

  function SpriteUrl(animated: bool, s: Slot, stem: string): string {
    BlackWhitePrefix + ((if animated then "animated/" else "") + SlotPath(s)) + (stem + if animated then ".gif" else ".png")
  }

  /** The form's own sprite fields (`sprites["front_default"]` and so on). */
  type SpriteFields = map<string, Option<string>>

  /** `form_sprites["sprites"].get(key)` is truthy. */
  predicate Present(fields: SpriteFields, key: string) {
    key in fields && Truthy(fields[key])
  }

  /** The `versions` → `generation-v` → `black-white` object built for a form:
      eight animated and eight still slots. */
  datatype BlackWhite = BlackWhite(animated: map<Slot, Option<string>>, still: map<Slot, Option<string>>)

  function BlackWhiteOf(fields: SpriteFields, stem: string): (bw: BlackWhite)
    ensures forall s :: s in bw.animated <==> s in AllSlots
    ensures forall s :: s in bw.still <==> s in AllSlots
  {
    BlackWhite(
      map s | s in AllSlots :: if Present(fields, SlotKey(s)) then Some(SpriteUrl(true, s, stem)) else None,
      map s | s in AllSlots :: if Present(fields, SlotKey(s)) then Some(SpriteUrl(false, s, stem)) else None)
  }

  /** There are exactly eight slots, each with its own key. */
  lemma SlotsComplete(s: Slot, t: Slot)
    ensures s in AllSlots
    ensures |AllSlots| == 8
    ensures SlotKey(s) == SlotKey(t) ==> s == t
  {
    if SlotKey(s) == SlotKey(t) {
      assert SlotKey(s)[0] == SlotKey(t)[0];
      assert s.back == t.back;
      var n := if s.back then 5 else 6;
      assert SlotKey(s)[n..] == SlotKey(t)[n..];
    }
  }

  /** Every one of the sixteen slots is `None` iff the form's non-animated
      sprite of that name is missing or falsy; otherwise its URL is the
      Black/White prefix, `animated/` for animated slots, the slot's
      directories, the stem and `.gif` (animated) or `.png` (still). */
  lemma BlackWhiteAt(fields: SpriteFields, stem: string, s: Slot)
    ensures var bw := BlackWhiteOf(fields, stem);
      && s in bw.animated && s in bw.still
      && (bw.animated[s].None? <==> !Present(fields, SlotKey(s)))
      && (bw.still[s].None? <==> !Present(fields, SlotKey(s)))
      && (Present(fields, SlotKey(s)) ==>
            && bw.animated[s].value == BlackWhitePrefix + ("animated/" + SlotPath(s)) + (stem + ".gif")
            && bw.still[s].value == BlackWhitePrefix + SlotPath(s) + (stem + ".png"))
  {
    SlotsComplete(s, s);
    assert "" + SlotPath(s) == SlotPath(s);
  }

  /** A synthesised URL starts with the Black/White prefix and ends with the
      stem and the extension; animated slots are `.gif`, still ones `.png`. */
  lemma SpriteUrlShape(animated: bool, s: Slot, stem: string)
    ensures var u := SpriteUrl(animated, s, stem);
      var ext := if animated then ".gif" else ".png";
      && |u| >= |BlackWhitePrefix| + |stem| + 4
      && u[..|BlackWhitePrefix|] == BlackWhitePrefix
      && u[|u| - |stem| - 4..] == stem + ext
  {
    var middle := (if animated then "animated/" else "") + SlotPath(s);
    var tail := stem + if animated then ".gif" else ".png";
    ConcatEnds(BlackWhitePrefix, middle, tail);
  }
}
