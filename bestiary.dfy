/** The bestiary tab: the field check (where the two source paths it lists are exempt),
    the trait tags with `hb_` removed, the size tag, its option lists and its default
    filter. */
module BestiaryTab {
  import opened Wrappers
  import opened FilterData
  import opened Documents
  import opened Records
  import opened Options
  import Strings
  import Compiler

  const IndexFields: seq<string> := ["img", "system.details.level.value", "system.details.publication.title",
                                      "system.details.source.value", "system.traits"]

  /** The fields the check can fail on. */
  const CheckedFields: seq<string> := ["img", "system.details.level.value", "system.traits"]

  /** The two source paths in the index list never make an actor fail the check. */
  lemma CheckedFieldsSuffice(r: ActorRecord)
    ensures HasAllIndexFields(p => r.Defines(p), IndexFields) == HasAllIndexFields(p => r.Defines(p), CheckedFields)
  {
    DetailsFieldPathsExempt();
    var d := p => r.Defines(p);
    var head := ["img", "system.details.level.value"];
    var sources := ["system.details.publication.title", "system.details.source.value"];
    var last := ["system.traits"];
    assert IndexFields == head + sources + last;
    assert CheckedFields == head + last;
    assert HasAllIndexFields(d, sources);
    HasAllAppend(d, head + sources, last);
    HasAllAppend(d, head, sources);
    HasAllAppend(d, head, last);
  }

  /** The record can be read past the field check: its trait list is an array and it has
      a size object. */
  predicate Readable(r: ActorRecord) {
    r.traits.Some? && r.traits.value.value.Val? && r.traits.value.size.Some?
  }

  function Traits(r: ActorRecord): seq<string>
    requires Readable(r)
  {
    r.traits.value.value.value
  }

  function Size(r: ActorRecord): JsValue<string>
    requires Readable(r)
  {
    r.traits.value.size.value
  }

  function Publication(r: ActorRecord): string {
    Strings.Trim(PubSource(r.publicationTitle, r.sourceValue))
  }

  function Rarity(r: ActorRecord): JsValue<string> {
    if r.traits.Some? then r.traits.value.rarity else Undefined
  }

  function FixedPairs(r: ActorRecord): seq<(string, string)>
    requires Readable(r)
  {
    [("level", ShowInt(r.level)), ("rarity", ShowString(Rarity(r))), ("size", ShowString(Size(r))), ("type", "npc")]
  }

  function DomainPairs(r: ActorRecord, env: Env): seq<(string, string)>
    requires Readable(r)
  {
    SourcePairs(Publication(r), env.slug) + TraitPairs(Traits(r), true) + FixedPairs(r)
  }

  function Domains(r: ActorRecord, env: Env): set<string>
    requires Readable(r)
  {
    Tags(DomainPairs(r, env))
  }

  /** What the tab makes of one actor record. */
  function Build(env: Env, r: ActorRecord): Built {
    if r.kind != "npc" then Ignored
    else if !HasAllIndexFields(p => r.Defines(p), IndexFields) then Skipped
    else if !Readable(r) then Thrown
    else
      var pub := Publication(r);
      Indexed(
        IndexEntry(r.name, r.originalName, r.img, r.uuid, r.level, Undefined, Undefined, Rarity(r), Undefined,
                   Domains(r, env)),
        if pub != "" then Some(pub) else None,
        None)
  }

  // ---- what the builder promises ------------------------------------------------------

  /** Other actors are ignored; an NPC missing its image, level or traits is skipped; an
      NPC whose trait list is not an array or that has no size object aborts the load; an
      indexed NPC keeps its level and rarity. */
  lemma BuildOutcome(env: Env, r: ActorRecord)
    ensures Build(env, r).Ignored? <==> r.kind != "npc"
    ensures Build(env, r).Skipped? <==> r.kind == "npc" && !HasAllIndexFields(p => r.Defines(p), CheckedFields)
    ensures Build(env, r).Thrown? <==>
      r.kind == "npc" && HasAllIndexFields(p => r.Defines(p), CheckedFields) && !Readable(r)
    ensures Build(env, r).Indexed? ==>
      var e := Build(env, r).entry;
      e.level == r.level && e.rarity == Rarity(r) && e.rank.Undefined? && e.price.Undefined? && Build(env, r).time.None?
  {
    CheckedFieldsSuffice(r);
  }

  lemma FixedPairsColonFree(r: ActorRecord)
    requires Readable(r)
    ensures ColonFree(FixedPairs(r))
  {
    assert Strings.NoColon("size") && Strings.NoColon("level") && Strings.NoColon("rarity") && Strings.NoColon("type");
    var f := FixedPairs(r);
    assert f[0].0 == "level" && f[1].0 == "rarity" && f[2].0 == "size" && f[3].0 == "type";
  }

  lemma DomainPairsColonFree(r: ActorRecord, env: Env)
    requires Readable(r)
    ensures ColonFree(DomainPairs(r, env))
  {
    TraitPairsColonFree(Traits(r), true);
    SourcePairsColonFree(Publication(r), env.slug);
    FixedPairsColonFree(r);
    ColonFreeAppend(SourcePairs(Publication(r), env.slug), TraitPairs(Traits(r), true));
    ColonFreeAppend(SourcePairs(Publication(r), env.slug) + TraitPairs(Traits(r), true), FixedPairs(r));
  }

  /** The pairs of all the tags, family by family. */
  lemma PairsMemberOfBestiary(r: ActorRecord, env: Env, q: string, x: string)
    requires Readable(r)
    ensures (q, x) in DomainPairs(r, env) <==>
      || (q == "source" && Publication(r) != "" && x == env.slug(Publication(r)))
      || (q == "trait" && x in StripAll(Traits(r)))
      || (q == "level" && x == ShowInt(r.level))
      || (q == "rarity" && x == ShowString(Rarity(r)))
      || (q == "size" && x == ShowString(Size(r)))
      || (q == "type" && x == "npc")
  {
    TraitPairsMember(Traits(r), true, q, x);
    var sp := SourcePairs(Publication(r), env.slug);
    if (q, x) in sp { assert q == "source"; }
  }

  lemma DomainMember(env: Env, r: ActorRecord, p: string, x: string)
    requires Readable(r) && Strings.NoColon(p)
    ensures Strings.Tag(p, x) in Domains(r, env) <==> (p, x) in DomainPairs(r, env)
  {
    DomainPairsColonFree(r, env);
    TagsMember(DomainPairs(r, env), p, x);
  }

  /** An NPC carries exactly one size tag, its size value. */
  lemma SizeTag(env: Env, r: ActorRecord, x: string)
    requires Readable(r)
    ensures Strings.Tag("size", x) in Domains(r, env) <==> x == ShowString(Size(r))
  {
    assert Strings.NoColon("size");
    DomainMember(env, r, "size", x);
    PairsMemberOfBestiary(r, env, "size", x);
  }

  /** The `trait:` tags are the traits with a leading `hb_` removed. */
  lemma TraitTag(env: Env, r: ActorRecord, x: string)
    requires Readable(r)
    ensures Strings.Tag("trait", x) in Domains(r, env) <==> x in StripAll(Traits(r))
  {
    assert Strings.NoColon("trait");
    DomainMember(env, r, "trait", x);
    PairsMemberOfBestiary(r, env, "trait", x);
  }

  /** The trimmed source string is tagged when it is not empty; the level, the rarity and
      the type are always tagged. */
  lemma SourceLevelRarityTags(env: Env, r: ActorRecord, x: string)
    requires Readable(r)
    ensures Strings.Tag("source", x) in Domains(r, env) <==> Publication(r) != "" && x == env.slug(Publication(r))
    ensures Strings.Tag("level", ShowInt(r.level)) in Domains(r, env)
    ensures Strings.Tag("rarity", ShowString(Rarity(r))) in Domains(r, env)
    ensures Strings.Tag("type", "npc") in Domains(r, env)
  {
    assert Strings.NoColon("source") && Strings.NoColon("level") && Strings.NoColon("rarity") && Strings.NoColon("type");
    DomainMember(env, r, "source", x);
    PairsMemberOfBestiary(r, env, "source", x);
    DomainMember(env, r, "level", ShowInt(r.level));
    PairsMemberOfBestiary(r, env, "level", ShowInt(r.level));
    DomainMember(env, r, "rarity", ShowString(Rarity(r)));
    PairsMemberOfBestiary(r, env, "rarity", ShowString(Rarity(r)));
    DomainMember(env, r, "type", "npc");
    PairsMemberOfBestiary(r, env, "type", "npc");
  }

  // ---- filter options ---------------------------------------------------------------

  const Unsorted: Option<GenerateSettings> := Some(GenerateSettings(None, Some(false)))

  datatype Lists = Lists(sizes: seq<LabeledValue>, rarity: seq<LabeledValue>, traits: seq<LabeledValue>,
                         source: seq<LabeledValue>)

  /** The option lists `loadData` computes: sizes and traits sorted by label, rarity in
      table order. */
  function OptionLists(c: Collected, env: Env): Lists {
    Lists(GenerateOptions(env.config("actorSizes"), None, env),
          GenerateOptions(env.config("rarityTraits"), Unsorted, env),
          GenerateOptions(env.config("creatureTraits"), None, env),
          SourceCheckboxOptions(c.publications, env))
  }

  /** The rarity options keep the table order; every size option is valued with a size
      key, which the `size` prefix of the chips turns into a size tag. */
  lemma OptionOrder(c: Collected, env: Env)
    ensures var t := env.config("rarityTraits"); var o := OptionLists(c, env).rarity;
      |o| == |t| && forall i | 0 <= i < |t| :: o[i].value == t[i].0
    ensures var t := env.config("actorSizes");
      forall o | o in OptionLists(c, env).sizes :: exists i | 0 <= i < |t| :: o.value == t[i].0
  {
    GenerateOptionsSpec(env.config("rarityTraits"), Unsorted, env);
    GenerateOptionsValues(env.config("actorSizes"), None, env);
  }

  function WithOptions(f: BrowserFilter, c: Collected, env: Env): (r: BrowserFilter)
    requires f.BestiaryFilters?
    ensures r.BestiaryFilters?
  {
    var o := OptionLists(c, env);
    f.(sizes := f.sizes.(options := o.sizes),
       rarity := f.rarity.(options := o.rarity),
       traits := f.traits.(options := o.traits),
       source := f.source.(options := o.source))
  }

  /** Loading again yields the same options; the selections, the order, the search and
      the level window are kept. */
  lemma WithOptionsIdempotent(f: BrowserFilter, c: Collected, env: Env)
    requires f.BestiaryFilters?
    ensures WithOptions(WithOptions(f, c, env), c, env) == WithOptions(f, c, env)
    ensures var r := WithOptions(f, c, env);
      && r.order == f.order && r.search == f.search && r.level == f.level
      && r.traits.selected == f.traits.selected && r.sizes.selected == f.sizes.selected
      && r.rarity.selected == f.rarity.selected && r.source.selected == f.source.selected
      && r.sizes.optionPrefix == f.sizes.optionPrefix
      && r.source.options == SourceCheckboxOptions(c.publications, env)
    ensures var r := WithOptions(f, c, env); var o := OptionLists(c, env);
      && r.sizes.options == o.sizes
      && r.rarity.options == o.rarity
      && r.traits.options == o.traits
      && r.source.options == o.source
  {
  }

  // ---- defaults -------------------------------------------------------------------------

  /** `prepareFilterData`. */
  function Defaults(): (f: BrowserFilter)
    ensures f.BestiaryFilters?
    ensures f.level == LevelData(false, false, -1, 25, -1, 25)
    ensures f.order.sortBy == "level" && f.order.direction == Asc && f.order.sortBy in f.order.options
    ensures f.sizes.optionPrefix == Some("size") && f.sizes.isExpanded && f.traits.conjunction == And
  {
    BestiaryFilters(
      OrderData("level", Asc,
        map["name" := OrderOption("Name", Alpha), "level" := OrderOption("PF2E.LevelLabel", Numeric)],
        Numeric),
      SearchData(""),
      TraitData(And, [], []),
      ChipsData(Or, false, "PF2E.CompendiumBrowser.Filter.Rarities", [], None, [], None),
      ChipsData(Or, true, "PF2E.CompendiumBrowser.Filter.Sizes", [], Some("size"), [], None),
      CheckboxData(false, "PF2E.CompendiumBrowser.Filter.Source", [], None, []),
      LevelData(false, false, -1, 25, -1, 25))
  }

  lemma DefaultsArePristine()
    ensures Compiler.Pristine(Defaults()) && Compiler.Statements(Defaults()) == []
  {
    Compiler.PristineIffEmpty(Defaults());
  }
}
