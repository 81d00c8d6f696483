/** The hazard tab: the field check against its own index list, the verbatim trait tags,
    the complexity tag, its option lists and its default filter. */
module HazardTab {
  import opened Wrappers
  import opened FilterData
  import opened Documents
  import opened Records
  import opened Options
  import Strings
  import Compiler

  /** The fields the check requires; the publication and source paths are requested
      beside them but not checked. */
  const IndexFields: seq<string> := ["img", "system.details.level.value", "system.details.isComplex", "system.traits"]

  /** The record can be read past the field check: its trait list is an array. */
  predicate Readable(r: ActorRecord) {
    r.traits.Some? && r.traits.value.value.Val?
  }

  function Traits(r: ActorRecord): seq<string>
    requires Readable(r)
  {
    r.traits.value.value.value
  }

  function Publication(r: ActorRecord): string {
    Strings.Trim(PubSource(r.publicationTitle, r.sourceValue))
  }

  function Rarity(r: ActorRecord): JsValue<string> {
    if r.traits.Some? then r.traits.value.rarity else Undefined
  }

  /** `isComplex ? "complex" : "simple"`: only `true` is truthy. */
  function Complexity(r: ActorRecord): (c: string)
    ensures c == "complex" || c == "simple"
    ensures c == "complex" <==> r.isComplex == Val(true)
  {
    if r.isComplex == Val(true) then "complex" else "simple"
  }

  function FixedPairs(r: ActorRecord): seq<(string, string)> {
    [("complexity", Complexity(r)), ("level", ShowInt(r.level)), ("rarity", ShowString(Rarity(r))), ("type", "hazard")]
  }

  function DomainPairs(r: ActorRecord, env: Env): seq<(string, string)>
    requires Readable(r)
  {
    TraitPairs(Traits(r), false) + SourcePairs(Publication(r), env.slug) + FixedPairs(r)
  }

  function Domains(r: ActorRecord, env: Env): set<string>
    requires Readable(r)
  {
    Tags(DomainPairs(r, env))
  }

  /** What the tab makes of one actor record. */
  function Build(env: Env, r: ActorRecord): Built {
    if r.kind != "hazard" then Ignored
    else if !HasAllIndexFields(p => r.Defines(p), IndexFields) then Skipped
    else if !Readable(r) then Thrown
    else
      var pub := Publication(r);
      Indexed(
        IndexEntry(r.name, r.originalName, r.img, r.uuid, r.level, Undefined, Undefined, Rarity(r), Undefined,
                   Domains(r, env)),
        if pub != "" then Some(pub) else None,
        None)
  }

  // ---- what the builder promises ------------------------------------------------------

  /** Other actors are ignored; a hazard missing one of the four fields is skipped; a
      hazard whose trait list is not an array aborts the load; an indexed hazard keeps its
      level and rarity. */
  lemma BuildOutcome(env: Env, r: ActorRecord)
    ensures Build(env, r).Ignored? <==> r.kind != "hazard"
    ensures Build(env, r).Skipped? <==> r.kind == "hazard" && !HasAllIndexFields(p => r.Defines(p), IndexFields)
    ensures Build(env, r).Thrown? <==>
      r.kind == "hazard" && HasAllIndexFields(p => r.Defines(p), IndexFields) && !Readable(r)
    ensures Build(env, r).Indexed? ==>
      var e := Build(env, r).entry;
      e.level == r.level && e.rarity == Rarity(r) && e.rank.Undefined? && e.price.Undefined? && Build(env, r).time.None?
  {
  }

  lemma DomainPairsColonFree(r: ActorRecord, env: Env)
    requires Readable(r)
    ensures ColonFree(DomainPairs(r, env))
  {
    assert Strings.NoColon("complexity") && Strings.NoColon("level") && Strings.NoColon("rarity") && Strings.NoColon("type");
    TraitPairsColonFree(Traits(r), false);
    SourcePairsColonFree(Publication(r), env.slug);
    assert ColonFree(FixedPairs(r));
    ColonFreeAppend(TraitPairs(Traits(r), false), SourcePairs(Publication(r), env.slug));
    ColonFreeAppend(TraitPairs(Traits(r), false) + SourcePairs(Publication(r), env.slug), FixedPairs(r));
  }

  /** The pairs of all the tags, family by family. */
  lemma PairsMemberOfHazard(r: ActorRecord, env: Env, q: string, x: string)
    requires Readable(r)
    ensures (q, x) in DomainPairs(r, env) <==>
      || (q == "trait" && x in Traits(r))
      || (q == "source" && Publication(r) != "" && x == env.slug(Publication(r)))
      || (q == "complexity" && x == Complexity(r))
      || (q == "level" && x == ShowInt(r.level))
      || (q == "rarity" && x == ShowString(Rarity(r)))
      || (q == "type" && x == "hazard")
  {
    TraitPairsMember(Traits(r), false, q, x);
    var sp := SourcePairs(Publication(r), env.slug);
    if (q, x) in sp { assert q == "source"; }
    var fixed := FixedPairs(r);
    assert (q, x) in fixed <==>
      || (q, x) == ("complexity", Complexity(r))
      || (q, x) == ("level", ShowInt(r.level))
      || (q, x) == ("rarity", ShowString(Rarity(r)))
      || (q, x) == ("type", "hazard");
    assert DomainPairs(r, env) == TraitPairs(Traits(r), false) + sp + fixed;
  }

  lemma DomainMember(env: Env, r: ActorRecord, p: string, x: string)
    requires Readable(r) && Strings.NoColon(p)
    ensures Strings.Tag(p, x) in Domains(r, env) <==> (p, x) in DomainPairs(r, env)
  {
    DomainPairsColonFree(r, env);
    TagsMember(DomainPairs(r, env), p, x);
  }

  /** A hazard carries exactly one complexity tag: `complexity:complex` when `isComplex`
      is `true`, `complexity:simple` otherwise (also when it is `null`). */
  lemma ComplexityTag(env: Env, r: ActorRecord, x: string)
    requires Readable(r)
    ensures Strings.Tag("complexity", x) in Domains(r, env) <==> x == Complexity(r)
    ensures Strings.Tag("complexity", "complex") in Domains(r, env) <==> r.isComplex == Val(true)
    ensures Strings.Tag("complexity", "simple") in Domains(r, env) <==> r.isComplex != Val(true)
  {
    assert Strings.NoColon("complexity");
    DomainMember(env, r, "complexity", x);
    PairsMemberOfHazard(r, env, "complexity", x);
    DomainMember(env, r, "complexity", "complex");
    PairsMemberOfHazard(r, env, "complexity", "complex");
    DomainMember(env, r, "complexity", "simple");
    PairsMemberOfHazard(r, env, "complexity", "simple");
  }

  /** The `trait:` tags are the traits as they are: this tab does not remove `hb_`. */
  lemma TraitTag(env: Env, r: ActorRecord, x: string)
    requires Readable(r)
    ensures Strings.Tag("trait", x) in Domains(r, env) <==> x in Traits(r)
  {
    assert Strings.NoColon("trait");
    DomainMember(env, r, "trait", x);
    PairsMemberOfHazard(r, env, "trait", x);
  }

  /** The trimmed source string is tagged when it is not empty; the level, the rarity and
      the type are always tagged. */
  lemma SourceLevelRarityTags(env: Env, r: ActorRecord, x: string)
    requires Readable(r)
    ensures Strings.Tag("source", x) in Domains(r, env) <==> Publication(r) != "" && x == env.slug(Publication(r))
    ensures Strings.Tag("level", ShowInt(r.level)) in Domains(r, env)
    ensures Strings.Tag("rarity", ShowString(Rarity(r))) in Domains(r, env)
    ensures Strings.Tag("type", "hazard") in Domains(r, env)
  {
    assert Strings.NoColon("source") && Strings.NoColon("level") && Strings.NoColon("rarity") && Strings.NoColon("type");
    DomainMember(env, r, "source", x);
    PairsMemberOfHazard(r, env, "source", x);
    DomainMember(env, r, "level", ShowInt(r.level));
    PairsMemberOfHazard(r, env, "level", ShowInt(r.level));
    DomainMember(env, r, "rarity", ShowString(Rarity(r)));
    PairsMemberOfHazard(r, env, "rarity", ShowString(Rarity(r)));
    DomainMember(env, r, "type", "hazard");
    PairsMemberOfHazard(r, env, "type", "hazard");
  }

  // ---- filter options ---------------------------------------------------------------

  /** The literal complexity table, simple first. */
  const ComplexityTable: ConfigTable := [("simple", "PF2E.Actor.Hazard.Simple"), ("complex", "PF2E.TraitComplex")]

  const Unsorted: Option<GenerateSettings> := Some(GenerateSettings(None, Some(false)))

  datatype Lists = Lists(complexity: seq<LabeledValue>, rarity: seq<LabeledValue>, traits: seq<LabeledValue>,
                         source: seq<LabeledValue>)

  /** The option lists `loadData` computes: complexity and rarity in table order, the
      traits sorted by label. */
  function OptionLists(c: Collected, env: Env): Lists {
    Lists(GenerateOptions(ComplexityTable, Unsorted, env),
          GenerateOptions(env.config("rarityTraits"), Unsorted, env),
          GenerateOptions(env.config("hazardTraits"), None, env),
          SourceCheckboxOptions(c.publications, env))
  }

  /** The complexity options are simple then complex, valued with the two strings the
      complexity tag takes, and the rarity options keep the table order. */
  lemma ComplexityOptions(c: Collected, env: Env)
    ensures var o := OptionLists(c, env).complexity;
      |o| == 2 && o[0] == LabeledValue(env.localize("PF2E.Actor.Hazard.Simple"), "simple")
      && o[1] == LabeledValue(env.localize("PF2E.TraitComplex"), "complex")
    ensures var t := env.config("rarityTraits"); var o := OptionLists(c, env).rarity;
      |o| == |t| && forall i | 0 <= i < |t| :: o[i].value == t[i].0
    ensures forall r: ActorRecord | Readable(r) :: exists k | 0 <= k < 2 ::
      OptionLists(c, env).complexity[k].value == Complexity(r)
  {
    GenerateOptionsSpec(ComplexityTable, Unsorted, env);
    GenerateOptionsSpec(env.config("rarityTraits"), Unsorted, env);
    var o := OptionLists(c, env).complexity;
    assert o[0].value == "simple" && o[1].value == "complex";
    forall r: ActorRecord | Readable(r) ensures exists k | 0 <= k < 2 :: o[k].value == Complexity(r) {
      if Complexity(r) == "simple" { assert o[0].value == Complexity(r); } else { assert o[1].value == Complexity(r); }
    }
  }

  function WithOptions(f: BrowserFilter, c: Collected, env: Env): (r: BrowserFilter)
    requires f.HazardFilters?
    ensures r.HazardFilters?
  {
    var o := OptionLists(c, env);
    f.(complexity := f.complexity.(options := o.complexity),
       rarity := f.rarity.(options := o.rarity),
       traits := f.traits.(options := o.traits),
       source := f.source.(options := o.source))
  }

  /** Loading again yields the same options; the selections, the order, the search and
      the level window are kept. */
  lemma WithOptionsIdempotent(f: BrowserFilter, c: Collected, env: Env)
    requires f.HazardFilters?
    ensures WithOptions(WithOptions(f, c, env), c, env) == WithOptions(f, c, env)
    ensures var r := WithOptions(f, c, env);
      && r.order == f.order && r.search == f.search && r.level == f.level
      && r.traits.selected == f.traits.selected && r.complexity.selected == f.complexity.selected
      && r.rarity.selected == f.rarity.selected && r.source.selected == f.source.selected
      && r.source.options == SourceCheckboxOptions(c.publications, env)
    ensures var r := WithOptions(f, c, env); var o := OptionLists(c, env);
      && r.complexity.options == o.complexity
      && r.rarity.options == o.rarity
      && r.traits.options == o.traits
      && r.source.options == o.source
  {
  }

  // ---- defaults -------------------------------------------------------------------------

  /** `prepareFilterData`. */
  function Defaults(): (f: BrowserFilter)
    ensures f.HazardFilters?
    ensures f.level == LevelData(false, false, -1, 25, -1, 25)
    ensures f.order.sortBy == "level" && f.order.direction == Asc && f.order.sortBy in f.order.options
    ensures f.complexity.isExpanded && !f.rarity.isExpanded && f.traits.conjunction == And
  {
    HazardFilters(
      OrderData("level", Asc,
        map["name" := OrderOption("Name", Alpha), "level" := OrderOption("PF2E.LevelLabel", Numeric)],
        Numeric),
      SearchData(""),
      TraitData(And, [], []),
      ChipsData(Or, true, "PF2E.CompendiumBrowser.Filter.Complexity", [], None, [], None),
      ChipsData(Or, false, "PF2E.CompendiumBrowser.Filter.Rarities", [], None, [], None),
      LevelData(false, false, -1, 25, -1, 25),
      CheckboxData(false, "PF2E.CompendiumBrowser.Filter.Source", [], None, []))
  }

  lemma DefaultsArePristine()
    ensures Compiler.Pristine(Defaults()) && Compiler.Statements(Defaults()) == []
  {
    Compiler.PristineIffEmpty(Defaults());
  }
}
