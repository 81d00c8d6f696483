/** The equipment tab: which physical items it indexes, the tags it derives from them,
    its price range input and its default filter. */
module EquipmentTab {
  import opened Wrappers
  import opened Strings
  import opened FilterData
  import opened Documents
  import opened Records
  import opened Options
  import Compiler

  /** The item types the tab indexes. */
  const ItemTypes: seq<string> := ["weapon", "shield", "armor", "equipment", "consumable", "treasure", "backpack", "kit"]

  const BaseFields: seq<string> := ["img", "system.price", "system.traits", "system.publication", "system.source"]
  const PhysicalItemFields: seq<string> := BaseFields + ["system.level.value"]
  const RunedItemFields: seq<string> := PhysicalItemFields + ["system.runes"]
  const ArmorAndWeaponFields: seq<string> := RunedItemFields + ["system.category", "system.group"]

  /** The fields an item of each type must have; each set extends the one before it. */
  function RequiredFields(kind: string): (r: seq<string>)
    ensures BaseFields <= r && r <= ArmorAndWeaponFields
    ensures kind == "kit" ==> r == BaseFields
    ensures kind == "shield" ==> r == RunedItemFields
  {
    if kind == "armor" || kind == "weapon" then ArmorAndWeaponFields
    else if kind == "kit" then BaseFields
    else if kind == "shield" then RunedItemFields
    else PhysicalItemFields
  }

  /** Coin treasure is never indexed. */
  predicate IsCoins(r: ItemRecord) {
    r.kind == "treasure" && r.stackGroup == Val("coins")
  }

  /** `system.traits.value ?? []`. */
  function TraitList(r: ItemRecord): seq<string> {
    if r.traits.Some? then r.traits.value.value.Or([]) else []
  }

  function Rarity(r: ItemRecord): JsValue<string> {
    if r.traits.Some? then r.traits.value.rarity else Undefined
  }

  /** The `magical` trait is inferred for runed armor, shields and weapons without a
      tradition trait. */
  predicate InfersMagical(r: ItemRecord, env: Env) {
    && (forall i | 0 <= i < |TraitList(r)| :: TraitList(r)[i] !in env.magicTraditions)
    && (r.kind == "armor" || r.kind == "shield" || r.kind == "weapon")
    && r.runes.Some? && r.runes.value.AnyRune()
  }

  /** The traits tagged: the record's traits, and `magical` when inferred. */
  function TaggedTraits(r: ItemRecord, env: Env): seq<string> {
    TraitList(r) + (if InfersMagical(r, env) then ["magical"] else [])
  }

  /** The trimmed publication title or source value. */
  function Publication(r: ItemRecord): string {
    Trim(PubSource(r.publicationTitle, r.sourceValue))
  }

  /** The copper value of the price; the price is present once the field check passed. */
  function Copper(r: ItemRecord, env: Env): int {
    env.copper(r.price.GetOr(PriceUnset))
  }

  /** The tags of an indexed item, as (family, value) pairs. */
  function DomainPairs(r: ItemRecord, env: Env): seq<(string, string)> {
    [("price", IntToString(Copper(r, env)))]
    + SourcePairs(Publication(r), env.slug)
    + TraitPairs(TaggedTraits(r, env), false)
    + FixedPairs(r)
  }

  /** The tags every item gets, with their defaults. */
  function FixedPairs(r: ItemRecord): seq<(string, string)> {
    [("level", IntToString(r.level.Or(0))),
     ("category", r.category.Or("none")),
     ("type", "group:" + r.group.Or("none")),
     ("rarity", ShowString(Rarity(r))),
     ("type", r.kind)]
  }

  lemma DomainPairsColonFree(r: ItemRecord, env: Env)
    ensures ColonFree(DomainPairs(r, env))
  {
    var head := [("price", IntToString(Copper(r, env)))];
    var tail := FixedPairs(r);
    assert NoColon("price") && NoColon("level") && NoColon("category") && NoColon("type") && NoColon("rarity");
    assert ColonFree(tail);
    SourcePairsColonFree(Publication(r), env.slug);
    TraitPairsColonFree(TaggedTraits(r, env), false);
    ColonFreeAppend(head, SourcePairs(Publication(r), env.slug));
    ColonFreeAppend(head + SourcePairs(Publication(r), env.slug), TraitPairs(TaggedTraits(r, env), false));
    ColonFreeAppend(head + SourcePairs(Publication(r), env.slug) + TraitPairs(TaggedTraits(r, env), false), tail);
  }

  function Domains(r: ItemRecord, env: Env): set<string> {
    Tags(DomainPairs(r, env))
  }

  /** What the tab makes of one item record. */
  function Build(env: Env, r: ItemRecord): Built {
    if IsCoins(r) || r.kind !in ItemTypes then Ignored
    else if !HasAllIndexFields(p => r.Defines(p), RequiredFields(r.kind)) then Skipped
    else
      var pub := Publication(r);
      Indexed(
        IndexEntry(r.name, r.originalName, r.img, r.uuid, Val(r.level.Or(0)), Undefined,
                   Val(Copper(r, env)), Rarity(r), Undefined, Domains(r, env)),
        if pub != "" then Some(pub) else None,
        None)
  }

  /** Exactly the coins and the records of other types are ignored, exactly the records
      that miss a field their type requires are skipped, and no record throws. */
  lemma BuildOutcome(env: Env, r: ItemRecord)
    ensures Build(env, r).Ignored? <==> IsCoins(r) || r.kind !in ItemTypes
    ensures Build(env, r).Skipped? <==>
      !IsCoins(r) && r.kind in ItemTypes && !HasAllIndexFields(p => r.Defines(p), RequiredFields(r.kind))
    ensures !Build(env, r).Thrown?
  {
  }

  /** A tag of an indexed item is present exactly when its pair is listed. */
  lemma DomainMember(env: Env, r: ItemRecord, p: string, x: string)
    requires NoColon(p)
    ensures Tag(p, x) in Domains(r, env) <==> (p, x) in DomainPairs(r, env)
  {
    DomainPairsColonFree(r, env);
    TagsMember(DomainPairs(r, env), p, x);
  }

  /** The `trait:` tags of an item are exactly its tagged traits. */
  lemma TraitTag(env: Env, r: ItemRecord, t: string)
    ensures Tag("trait", t) in Domains(r, env) <==> t in TaggedTraits(r, env)
  {
    DomainMember(env, r, "trait", t);
    var ts := TaggedTraits(r, env);
    TraitPairsMember(ts, false, "trait", t);
    var sp := SourcePairs(Publication(r), env.slug);
    TraitNotFixed(r, t);
    assert ("trait", t) !in sp;
    InFour([("price", IntToString(Copper(r, env)))], sp, TraitPairs(ts, false), FixedPairs(r), ("trait", t));
  }

  lemma TraitNotFixed(r: ItemRecord, t: string)
    ensures ("trait", t) !in FixedPairs(r) && "trait" != "source" && "trait" != "price"
  {
    assert |"trait"| == 5 && |"source"| == 6 && |"category"| == 8 && |"type"| == 4 && |"rarity"| == 6;
    assert "trait"[0] != "level"[0] && "trait"[0] != "price"[0];
  }

  /** The `magical` tag is present exactly when the record lists the trait or the tab
      infers it. */
  lemma MagicalTag(env: Env, r: ItemRecord)
    ensures Tag("trait", "magical") in Domains(r, env) <==> "magical" in TraitList(r) || InfersMagical(r, env)
  {
    TraitTag(env, r, "magical");
    var ts := TraitList(r);
    var extra: seq<string> := if InfersMagical(r, env) then ["magical"] else [];
    assert TaggedTraits(r, env) == ts + extra;
    assert "magical" in ts + extra <==> "magical" in ts || "magical" in extra;
  }

  /** The tags every indexed item carries, with their defaults, and the entry's level and
      price. */
  lemma AlwaysTagged(env: Env, r: ItemRecord)
    requires Build(env, r).Indexed?
    ensures var e := Build(env, r).entry;
      && Tag("level", IntToString(r.level.Or(0))) in e.domains
      && Tag("category", r.category.Or("none")) in e.domains
      && Tag("type", "group:" + r.group.Or("none")) in e.domains
      && Tag("rarity", ShowString(Rarity(r))) in e.domains
      && Tag("type", r.kind) in e.domains
      && Tag("price", IntToString(Copper(r, env))) in e.domains
      && e.level == Val(r.level.Or(0)) && e.price == Val(Copper(r, env))
  {
    var ps := DomainPairs(r, env);
    var n := |ps|;
    assert ps[0] == ("price", IntToString(Copper(r, env)));
    assert ps[n - 5] == ("level", IntToString(r.level.Or(0)));
    assert ps[n - 4] == ("category", r.category.Or("none"));
    assert ps[n - 3] == ("type", "group:" + r.group.Or("none"));
    assert ps[n - 2] == ("rarity", ShowString(Rarity(r)));
    assert ps[n - 1] == ("type", r.kind);
  }

  /** The `source:` tags of an item name its trimmed publication, when there is one. */
  lemma SourceDomain(env: Env, r: ItemRecord, x: string)
    ensures Tag("source", x) in Domains(r, env) <==> Publication(r) != "" && x == env.slug(Publication(r))
  {
    DomainMember(env, r, "source", x);
    SourcePairListed(env, r, x);
  }

  lemma SourcePairListed(env: Env, r: ItemRecord, x: string)
    ensures ("source", x) in DomainPairs(r, env) <==> ("source", x) in SourcePairs(Publication(r), env.slug)
  {
    var ts := TaggedTraits(r, env);
    TraitPairsMember(ts, false, "source", x);
    var price := [("price", IntToString(Copper(r, env)))];
    var tp := TraitPairs(ts, false);
    SourceNotFixed(r, x);
    assert ("source", x) !in price && ("source", x) !in tp;
    InSecondOnly(price, SourcePairs(Publication(r), env.slug), tp, FixedPairs(r), ("source", x));
  }

  lemma SourceNotFixed(r: ItemRecord, x: string)
    ensures ("source", x) !in FixedPairs(r) && "source" != "trait" && "source" != "price"
  {
    assert |"source"| == 6 && |"trait"| == 5 && |"price"| == 5;
    assert "source"[0] != "rarity"[0];
  }

  /** A source tag and a collected publication appear exactly when the trimmed publication
      string is not empty. */
  lemma SourceTag(env: Env, r: ItemRecord, x: string)
    requires Build(env, r).Indexed?
    ensures Build(env, r).publication.Some? <==> Publication(r) != ""
    ensures Build(env, r).publication.Some? ==> Build(env, r).publication.value == Publication(r)
    ensures Tag("source", x) in Build(env, r).entry.domains <==> Publication(r) != "" && x == env.slug(Publication(r))
  {
    BuildIndexed(env, r);
    SourceDomain(env, r, x);
  }

  /** An indexed item's entry carries its tags, and its trimmed publication is collected
      when it is not empty. */
  lemma BuildIndexed(env: Env, r: ItemRecord)
    requires Build(env, r).Indexed?
    ensures Build(env, r).entry.domains == Domains(r, env)
    ensures Build(env, r).publication == if Publication(r) != "" then Some(Publication(r)) else None
  {
  }

  // ---- filter options ---------------------------------------------------------------

  /** The option lists `loadData` computes after the load. */
  datatype Lists = Lists(armorTypes: seq<LabeledValue>, weaponTypes: seq<LabeledValue>, traits: seq<LabeledValue>,
                         itemTypes: seq<LabeledValue>, rarity: seq<LabeledValue>, source: seq<LabeledValue>)

  function OptionLists(c: Collected, env: Env): Lists {
    var group := Some(GenerateSettings(Some("group"), None));
    var noSort := Some(GenerateSettings(None, Some(false)));
    var traits := Merge(Merge(Merge(Merge(env.config("armorTraits"), env.config("consumableTraits")),
                                     env.config("equipmentTraits")), env.config("shieldTraits")), env.config("weaponTraits"));
    var itemTypes := [("weapon", "TYPES.Item.weapon"), ("shield", "TYPES.Item.shield"), ("armor", "TYPES.Item.armor"),
                      ("equipment", "TYPES.Item.equipment"), ("consumable", "TYPES.Item.consumable"),
                      ("treasure", "TYPES.Item.treasure"), ("backpack", "TYPES.Item.backpack"), ("kit", "TYPES.Item.kit")];
    Lists(GenerateOptions(env.config("armorCategories"), None, env) + GenerateOptions(env.config("armorGroups"), group, env),
          GenerateOptions(env.config("weaponCategories"), None, env) + GenerateOptions(env.config("weaponGroups"), group, env),
          GenerateOptions(traits, None, env),
          GenerateOptions(itemTypes, None, env),
          GenerateOptions(env.config("rarityTraits"), noSort, env),
          SourceCheckboxOptions(c.publications, env))
  }

  /** The filter with the option lists assigned. */
  function WithOptions(f: BrowserFilter, c: Collected, env: Env): (r: BrowserFilter)
    requires f.EquipmentFilters?
    ensures r.EquipmentFilters?
  {
    var o := OptionLists(c, env);
    f.(armorTypes := f.armorTypes.(options := o.armorTypes),
       weaponTypes := f.weaponTypes.(options := o.weaponTypes),
       traits := f.traits.(options := o.traits),
       itemTypes := f.itemTypes.(options := o.itemTypes),
       rarity := f.rarity.(options := o.rarity),
       source := f.source.(options := o.source))
  }

  /** The option lists replace the old ones; the selections, order, search and ranges are
      kept. */
  lemma WithOptionsKeepsSelections(f: BrowserFilter, c: Collected, env: Env)
    requires f.EquipmentFilters?
    ensures var r := WithOptions(f, c, env);
      && r.order == f.order && r.search == f.search && r.price == f.price && r.level == f.level
      && r.traits.selected == f.traits.selected && r.source.selected == f.source.selected
      && r.armorTypes.selected == f.armorTypes.selected && r.weaponTypes.selected == f.weaponTypes.selected
      && r.itemTypes.selected == f.itemTypes.selected && r.rarity.selected == f.rarity.selected
      && r.source.options == SourceCheckboxOptions(c.publications, env)
    ensures var r := WithOptions(f, c, env); var o := OptionLists(c, env);
      && r.armorTypes.options == o.armorTypes
      && r.weaponTypes.options == o.weaponTypes
      && r.traits.options == o.traits
      && r.itemTypes.options == o.itemTypes
      && r.rarity.options == o.rarity
      && r.source.options == o.source
  {
  }

  // ---- the price range ----------------------------------------------------------------

  /** `localizer("PF2E.CurrencyAbbreviations")(denomination)`. */
  function CoinLabel(env: Env, denomination: string): string {
    env.localize("PF2E.CurrencyAbbreviations." + denomination)
  }

  /** Replaces the localised coin abbreviations by the English ones, `cp` to `pp` in turn. */
  function Delocalize(s: string, env: Env): string {
    ReplaceAll(ReplaceAll(ReplaceAll(ReplaceAll(s, CoinLabel(env, "cp"), "cp"), CoinLabel(env, "sp"), "sp"),
               CoinLabel(env, "gp"), "gp"), CoinLabel(env, "pp"), "pp")
  }

  /** The tab's `parseRangeFilterInput`: a price is read as coins in copper from the
      delocalised input, which is also what is kept as input; any other range falls back
      to the base parser. */
  function ParseRangeFilterInput(name: string, lower: string, upper: string, env: Env): (r: RangeValues)
    ensures name != "price" ==> r == Options.ParseRangeFilterInput(name, lower, upper, env)
    ensures name == "price" ==>
      && r.inputMin == Delocalize(lower, env) && r.inputMax == Delocalize(upper, env)
      && r.min == env.copper(PriceText(r.inputMin)) && r.max == env.copper(PriceText(r.inputMax))
  {
    if name == "price" then
      var lo := Delocalize(lower, env);
      var hi := Delocalize(upper, env);
      RangeValues(env.copper(PriceText(lo)), env.copper(PriceText(hi)), lo, hi)
    else Options.ParseRangeFilterInput(name, lower, upper, env)
  }

  /** Replacing a non-empty pattern by itself changes nothing. */
  lemma {:induction false} ReplaceAllSelf(s: string, p: string)
    requires |p| > 0
    ensures ReplaceAll(s, p, p) == s
    decreases |s|
  {
    if StartsWith(s, p) {
      ReplaceAllSelf(s[|p|..], p);
      assert s == p + s[|p|..];
    } else if |s| > 0 {
      ReplaceAllSelf(s[1..], p);
      assert s == [s[0]] + s[1..];
    }
  }

  /** Where the abbreviations are the English ones, the price input is kept verbatim. */
  lemma EnglishPriceInput(lower: string, upper: string, env: Env)
    requires CoinLabel(env, "cp") == "cp" && CoinLabel(env, "sp") == "sp"
    requires CoinLabel(env, "gp") == "gp" && CoinLabel(env, "pp") == "pp"
    ensures ParseRangeFilterInput("price", lower, upper, env).inputMin == lower
    ensures ParseRangeFilterInput("price", lower, upper, env).inputMax == upper
  {
    forall s: string ensures Delocalize(s, env) == s {
      ReplaceAllSelf(s, "cp");
      ReplaceAllSelf(s, "sp");
      ReplaceAllSelf(s, "gp");
      ReplaceAllSelf(s, "pp");
    }
  }

  // ---- defaults -------------------------------------------------------------------------

  /** `prepareFilterData`. */
  function Defaults(env: Env): (f: BrowserFilter)
    ensures f.EquipmentFilters?
    ensures f.level == LevelData(false, false, 0, 30, 0, 30)
    ensures !f.price.changed && f.price.values.min == 0 && f.price.values.max == 20000000
    ensures f.order.sortBy == "level" && f.order.direction == Asc && f.order.sortBy in f.order.options
  {
    var cp := CoinLabel(env, "cp");
    var gp := CoinLabel(env, "gp");
    EquipmentFilters(
      OrderData("level", Asc,
        map["name" := OrderOption("Name", Alpha), "level" := OrderOption("PF2E.LevelLabel", Numeric),
            "price" := OrderOption("PF2E.PriceLabel", Numeric)],
        Numeric),
      SearchData(""),
      TraitData(And, [], []),
      ChipsData(Or, false, "PF2E.CompendiumBrowser.Filter.ArmorFilters", [], Some("type"), [], None),
      ChipsData(Or, true, "PF2E.CompendiumBrowser.Filter.InventoryTypes", [], Some("type"), [], None),
      ChipsData(Or, false, "PF2E.CompendiumBrowser.Filter.Rarities", [], None, [], None),
      ChipsData(Or, false, "PF2E.CompendiumBrowser.Filter.WeaponFilters", [], Some("type"), [], None),
      RangesInputData(false, "0" + cp, "200,000" + gp, false, RangeValues(0, 20000000, "0" + cp, "200,000" + gp),
                      "PF2E.PriceLabel", None),
      LevelData(false, false, 0, 30, 0, 30),
      CheckboxData(false, "PF2E.CompendiumBrowser.Filter.Source", [], None, []))
  }

  /** The default filter selects nothing, so it compiles to an empty conjunction. */
  lemma DefaultsArePristine(env: Env)
    ensures Compiler.Pristine(Defaults(env)) && Compiler.Statements(Defaults(env)) == []
  {
    Compiler.PristineIffEmpty(Defaults(env));
  }
}
