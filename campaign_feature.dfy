/** The campaign-feature tab: no field check, the trait tags with `hb_` removed, the
    level tag that falls back to 0, its option lists and its default filter. */
module CampaignFeatureTab {
  import opened Wrappers
  import opened FilterData
  import opened Documents
  import opened Records
  import opened Options
  import Strings
  import Compiler

  /** The record can be read: it has traits and its trait list is an array. */
  predicate Readable(r: ItemRecord) {
    r.traits.Some? && r.traits.value.value.Val?
  }

  function Traits(r: ItemRecord): seq<string>
    requires Readable(r)
  {
    r.traits.value.value.value
  }

  function Publication(r: ItemRecord): string {
    Strings.Trim(PubSource(r.publicationTitle, r.sourceValue))
  }

  function Rarity(r: ItemRecord): JsValue<string> {
    if r.traits.Some? then r.traits.value.rarity else Undefined
  }

  /** `level?.value ?? 0`: a missing or `null` level is tagged as level 0. */
  function TaggedLevel(r: ItemRecord): (n: int)
    ensures r.level.Val? ==> n == r.level.value
    ensures !r.level.Val? ==> n == 0
  {
    r.level.Or(0)
  }

  function DomainPairs(r: ItemRecord, env: Env): seq<(string, string)>
    requires Readable(r)
  {
    TraitPairs(Traits(r), true)
    + SourcePairs(Publication(r), env.slug)
    + [("category", ShowString(r.category)), ("level", Strings.IntToString(TaggedLevel(r))),
       ("rarity", ShowString(Rarity(r)))]
  }

  function Domains(r: ItemRecord, env: Env): set<string>
    requires Readable(r)
  {
    Tags(DomainPairs(r, env))
  }

  /** What the tab makes of one item record: there is no field check, and the entry keeps
      the level as the record has it. */
  function Build(env: Env, r: ItemRecord): Built {
    if r.kind != "campaignFeature" then Ignored
    else if !Readable(r) then Thrown
    else
      var pub := Publication(r);
      Indexed(
        IndexEntry(r.name, r.originalName, r.img, r.uuid, r.level, Undefined, Undefined, Rarity(r), Undefined,
                   Domains(r, env)),
        if pub != "" then Some(pub) else None,
        None)
  }

  // ---- what the builder promises ------------------------------------------------------

  /** Other items are ignored; no campaign feature is skipped; one without a trait list
      aborts the load; an indexed feature keeps its level, even a missing one. */
  lemma BuildOutcome(env: Env, r: ItemRecord)
    ensures Build(env, r).Ignored? <==> r.kind != "campaignFeature"
    ensures !Build(env, r).Skipped?
    ensures Build(env, r).Thrown? <==> r.kind == "campaignFeature" && !Readable(r)
    ensures Build(env, r).Indexed? ==>
      var e := Build(env, r).entry;
      e.level == r.level && e.rarity == Rarity(r) && e.rank.Undefined? && Build(env, r).time.None?
  {
  }

  lemma DomainPairsColonFree(r: ItemRecord, env: Env)
    requires Readable(r)
    ensures ColonFree(DomainPairs(r, env))
  {
    assert Strings.NoColon("category") && Strings.NoColon("level") && Strings.NoColon("rarity");
    var t := TraitPairs(Traits(r), true);
    var s := SourcePairs(Publication(r), env.slug);
    var l := [("category", ShowString(r.category)), ("level", Strings.IntToString(TaggedLevel(r))),
              ("rarity", ShowString(Rarity(r)))];
    assert ColonFree(l);
    TraitPairsColonFree(Traits(r), true);
    SourcePairsColonFree(Publication(r), env.slug);
    ColonFreeAppend(t, s);
    ColonFreeAppend(t + s, l);
  }

  /** The pairs of all the tags, family by family. */
  lemma PairsMemberOfCampaignFeature(r: ItemRecord, env: Env, q: string, x: string)
    requires Readable(r)
    ensures (q, x) in DomainPairs(r, env) <==>
      || (q == "trait" && x in StripAll(Traits(r)))
      || (q == "source" && Publication(r) != "" && x == env.slug(Publication(r)))
      || (q == "category" && x == ShowString(r.category))
      || (q == "level" && x == Strings.IntToString(TaggedLevel(r)))
      || (q == "rarity" && x == ShowString(Rarity(r)))
  {
    TraitPairsMember(Traits(r), true, q, x);
    var sp := SourcePairs(Publication(r), env.slug);
    if (q, x) in sp { assert q == "source"; }
  }

  lemma DomainMember(env: Env, r: ItemRecord, p: string, x: string)
    requires Readable(r) && Strings.NoColon(p)
    ensures Strings.Tag(p, x) in Domains(r, env) <==> (p, x) in DomainPairs(r, env)
  {
    DomainPairsColonFree(r, env);
    TagsMember(DomainPairs(r, env), p, x);
  }

  /** Every campaign feature has exactly one level tag, the level read as a number, and
      `level:0` when it has no level; so a level window always has a number to test. */
  lemma LevelTag(env: Env, r: ItemRecord, n: int)
    requires Readable(r)
    ensures Strings.Tag("level", Strings.IntToString(n)) in Domains(r, env) <==> n == r.level.Or(0)
    ensures !r.level.Val? ==> Strings.Tag("level", "0") in Domains(r, env)
  {
    assert Strings.NoColon("level");
    DomainMember(env, r, "level", Strings.IntToString(n));
    PairsMemberOfCampaignFeature(r, env, "level", Strings.IntToString(n));
    if Strings.IntToString(n) == Strings.IntToString(TaggedLevel(r)) {
      Strings.IntToStringInjective(n, TaggedLevel(r));
    }
    if !r.level.Val? {
      assert Strings.IntToString(0) == "0";
      DomainMember(env, r, "level", "0");
      PairsMemberOfCampaignFeature(r, env, "level", "0");
    }
  }

  /** The `trait:` tags are the traits with a leading `hb_` removed; the category, the
      rarity and the trimmed source are tagged as in the other item tabs. */
  lemma TraitCategoryRaritySourceTags(env: Env, r: ItemRecord, x: string)
    requires Readable(r)
    ensures Strings.Tag("trait", x) in Domains(r, env) <==> x in StripAll(Traits(r))
    ensures Strings.Tag("category", x) in Domains(r, env) <==> x == ShowString(r.category)
    ensures Strings.Tag("rarity", x) in Domains(r, env) <==> x == ShowString(Rarity(r))
    ensures Strings.Tag("source", x) in Domains(r, env) <==> Publication(r) != "" && x == env.slug(Publication(r))
  {
    assert Strings.NoColon("trait") && Strings.NoColon("category") && Strings.NoColon("rarity") && Strings.NoColon("source");
    DomainMember(env, r, "trait", x);
    PairsMemberOfCampaignFeature(r, env, "trait", x);
    DomainMember(env, r, "category", x);
    PairsMemberOfCampaignFeature(r, env, "category", x);
    DomainMember(env, r, "rarity", x);
    PairsMemberOfCampaignFeature(r, env, "rarity", x);
    DomainMember(env, r, "source", x);
    PairsMemberOfCampaignFeature(r, env, "source", x);
  }

  // ---- filter options ---------------------------------------------------------------

  datatype Lists = Lists(category: seq<LabeledValue>, rarity: seq<LabeledValue>, source: seq<LabeledValue>,
                         traits: seq<LabeledValue>)

  /** The option lists `loadData` computes; unlike the other tabs, the rarities here are
      sorted by label. `kingmakerCategories` is the table of campaign-feature
      categories. */
  function OptionLists(c: Collected, env: Env): Lists {
    Lists(GenerateOptions(env.config("kingmakerCategories"), None, env),
          GenerateOptions(env.config("rarityTraits"), None, env),
          SourceCheckboxOptions(c.publications, env),
          GenerateOptions(env.config("kingmakerTraits"), None, env))
  }

  /** The rarity options are the rarities rearranged into label order. */
  lemma RarityOptionsSorted(c: Collected, env: Env)
    requires Sorting.TotalPreorderOn((s: string) => true, env.collate)
    ensures Sorting.Sorted(OptionLists(c, env).rarity, ByLabel(env.collate))
    ensures multiset(OptionLists(c, env).rarity) == multiset(LocalizedOptions(env.config("rarityTraits"), None, env.localize))
  {
    GenerateOptionsSpec(env.config("rarityTraits"), None, env);
  }

  function WithOptions(f: BrowserFilter, c: Collected, env: Env): (r: BrowserFilter)
    requires f.CampaignFeatureFilters?
    ensures r.CampaignFeatureFilters?
  {
    var o := OptionLists(c, env);
    CampaignFeatureFilters(f.order, f.search, f.traits.(options := o.traits), f.category.(options := o.category),
                           f.rarity.(options := o.rarity), f.level, f.source.(options := o.source))
  }

  /** Loading again yields the same options; the selections, the order, the search and
      the level window are kept. */
  lemma WithOptionsIdempotent(f: BrowserFilter, c: Collected, env: Env)
    requires f.CampaignFeatureFilters?
    ensures WithOptions(WithOptions(f, c, env), c, env) == WithOptions(f, c, env)
    ensures var r := WithOptions(f, c, env);
      && r.order == f.order && r.search == f.search && r.level == f.level
      && r.traits.selected == f.traits.selected && r.category.selected == f.category.selected
      && r.rarity.selected == f.rarity.selected && r.source.selected == f.source.selected
      && r.source.options == SourceCheckboxOptions(c.publications, env)
    ensures var r := WithOptions(f, c, env); var o := OptionLists(c, env);
      && r.traits.options == o.traits
      && r.category.options == o.category
      && r.rarity.options == o.rarity
      && r.source.options == o.source
  {
  }

  // ---- defaults -------------------------------------------------------------------------

  /** `prepareFilterData`. */
  function Defaults(): (f: BrowserFilter)
    ensures f.CampaignFeatureFilters?
    ensures f.level == LevelData(false, false, 0, 20, 0, 20)
    ensures f.order.sortBy == "level" && f.order.direction == Asc && f.order.sortBy in f.order.options
    ensures !f.category.isExpanded && !f.rarity.isExpanded && f.traits.conjunction == And
  {
    CampaignFeatureFilters(
      OrderData("level", Asc,
        map["name" := OrderOption("Name", Alpha), "level" := OrderOption("PF2E.LevelLabel", Numeric)],
        Numeric),
      SearchData(""),
      TraitData(And, [], []),
      ChipsData(Or, false, "PF2E.CompendiumBrowser.Filter.Categories", [], None, [], None),
      ChipsData(Or, false, "PF2E.CompendiumBrowser.Filter.Rarities", [], None, [], None),
      LevelData(false, false, 0, 20, 0, 20),
      CheckboxData(false, "PF2E.CompendiumBrowser.Filter.Source", [], None, []))
  }

  lemma DefaultsArePristine()
    ensures Compiler.Pristine(Defaults()) && Compiler.Statements(Defaults()) == []
  {
    Compiler.PristineIffEmpty(Defaults());
  }
}
