/** The feat tab: the backward-compatible category check, the skill tags read from the
    prerequisites, the universal-ancestry tag, its option lists and its default filter. */
module FeatTab {
  import opened Wrappers
  import opened Strings
  import opened FilterData
  import opened Documents
  import opened Records
  import opened Options
  import Compiler

  const IndexFields: seq<string> := ["img", "system.actionType.value", "system.actions.value", "system.category",
                                      "system.level.value", "system.prerequisites.value", "system.traits",
                                      "system.publication", "system.source"]

  /** The index fields other than the category paths. */
  const NonCategoryFields: seq<string> := ["img", "system.actionType.value", "system.actions.value",
                                            "system.level.value", "system.prerequisites.value", "system.traits",
                                            "system.publication", "system.source"]

  /** `indexFields.filter((f) => !categoryPaths.includes(f))`. */
  lemma NonCategoryFieldsFiltered()
    ensures NonCategoryFields == IndexFields[..3] + IndexFields[4..]
    ensures "system.category" !in NonCategoryFields && "system.featType.value" !in NonCategoryFields
  {
  }

  /** Either category path is there: `system.category`, or the deprecated
      `system.featType.value`. */
  predicate CategoryPathFound(r: ItemRecord) {
    r.Defines("system.category") || r.Defines("system.featType.value")
  }

  /** The category after the deprecated `featType` is taken over: a plain `featType`
      object with a string `value` supplies the category. */
  function Category(r: ItemRecord): (c: JsValue<string>)
    ensures r.featType.FeatTypeObject? && r.featType.value.Val? ==> c == r.featType.value
    ensures !(r.featType.FeatTypeObject? && r.featType.value.Val?) ==> c == r.category
  {
    if r.featType.FeatTypeObject? && r.featType.value.Val? then r.featType.value else r.category
  }

  /** The record can be read past the field check without an exception: the prerequisite
      list and the trait list are arrays. */
  predicate Readable(r: ItemRecord) {
    r.traits.Some? && r.traits.value.value.Val? && r.prerequisites.Val?
  }

  function Traits(r: ItemRecord): seq<string>
    requires Readable(r)
  {
    r.traits.value.value.value
  }

  /** Each prerequisite as the lower-cased text, or `""` when it has none. */
  function PrerequisiteTexts(ps: seq<JsValue<string>>, env: Env): (r: seq<string>)
    ensures |r| == |ps|
    ensures forall i | 0 <= i < |r| :: r[i] == (if ps[i].Val? && ps[i].value != "" then env.lower(ps[i].value) else "")
  {
    seq(|ps|, i requires 0 <= i < |ps| => if ps[i].Val? && ps[i].value != "" then env.lower(ps[i].value) else "")
  }

  // ---- skills ---------------------------------------------------------------------------

  /** A prerequisite names a skill when it contains the skill's key or its lower-cased
      localised label. */
  predicate SkillMatches(prereq: string, skill: (string, string), env: Env) {
    Contains(prereq, skill.0) || Contains(prereq, env.localeLower(env.localize(skill.1)))
  }

  /** The skills a prerequisite names, added one by one to an insertion-ordered set. */
  function AddMatching(acc: seq<string>, prereq: string, skills: ConfigTable, env: Env): seq<string>
    decreases |skills|
  {
    if skills == [] then acc
    else
      var before := AddMatching(acc, prereq, skills[..|skills| - 1], env);
      if SkillMatches(prereq, skills[|skills| - 1], env) then AddUnique(before, skills[|skills| - 1].0) else before
  }

  /** The skills all prerequisites name, prerequisite by prerequisite. */
  function Skills(prereqs: seq<string>, skills: ConfigTable, env: Env): seq<string>
    decreases |prereqs|
  {
    if prereqs == [] then []
    else AddMatching(Skills(prereqs[..|prereqs| - 1], skills, env), prereqs[|prereqs| - 1], skills, env)
  }

  /** The nested loop over the prerequisites and the configured skills. */
  method CollectSkills(prereqs: seq<string>, skills: ConfigTable, env: Env) returns (found: seq<string>)
    ensures found == Skills(prereqs, skills, env)
  {
    found := [];
    for i := 0 to |prereqs|
      invariant found == Skills(prereqs[..i], skills, env)
    {
      ghost var before := found;
      for j := 0 to |skills|
        invariant found == AddMatching(before, prereqs[i], skills[..j], env)
      {
        assert skills[..j + 1][..j] == skills[..j];
        if SkillMatches(prereqs[i], skills[j], env) {
          found := AddUnique(found, skills[j].0);
        }
      }
      assert skills[..|skills|] == skills;
      assert prereqs[..i + 1][..i] == prereqs[..i];
    }
    assert prereqs[..|prereqs|] == prereqs;
  }

  lemma {:induction false} AddMatchingMember(acc: seq<string>, prereq: string, skills: ConfigTable, env: Env, k: string)
    ensures k in AddMatching(acc, prereq, skills, env) <==>
      k in acc || exists j | 0 <= j < |skills| :: skills[j].0 == k && SkillMatches(prereq, skills[j], env)
    ensures NoDuplicates(acc) ==> NoDuplicates(AddMatching(acc, prereq, skills, env))
    decreases |skills|
  {
    if skills != [] {
      var init := skills[..|skills| - 1];
      AddMatchingMember(acc, prereq, init, env, k);
      if k in AddMatching(acc, prereq, init, env) && k !in acc {
        var j :| 0 <= j < |init| && init[j].0 == k && SkillMatches(prereq, init[j], env);
        assert skills[j] == init[j];
      }
      if exists j | 0 <= j < |skills| :: skills[j].0 == k && SkillMatches(prereq, skills[j], env) {
        var j :| 0 <= j < |skills| && skills[j].0 == k && SkillMatches(prereq, skills[j], env);
        if j < |init| { assert init[j] == skills[j]; }
      }
    }
  }

  /** A skill is found exactly when one of the prerequisites names it, and it is found
      once. */
  lemma {:induction false} SkillsMember(prereqs: seq<string>, skills: ConfigTable, env: Env, k: string)
    ensures k in Skills(prereqs, skills, env) <==>
      exists i, j | 0 <= i < |prereqs| && 0 <= j < |skills| :: skills[j].0 == k && SkillMatches(prereqs[i], skills[j], env)
    ensures NoDuplicates(Skills(prereqs, skills, env))
    decreases |prereqs|
  {
    if prereqs == [] {
    } else {
      var init := prereqs[..|prereqs| - 1];
      var last := prereqs[|prereqs| - 1];
      SkillsMember(init, skills, env, k);
      AddMatchingMember(Skills(init, skills, env), last, skills, env, k);
      if exists i, j | 0 <= i < |prereqs| && 0 <= j < |skills| :: skills[j].0 == k && SkillMatches(prereqs[i], skills[j], env) {
        var i, j :| 0 <= i < |prereqs| && 0 <= j < |skills| && skills[j].0 == k && SkillMatches(prereqs[i], skills[j], env);
        if i < |init| { assert init[i] == prereqs[i]; }
      }
      if k in Skills(init, skills, env) {
        var i, j :| 0 <= i < |init| && 0 <= j < |skills| && skills[j].0 == k && SkillMatches(init[i], skills[j], env);
        assert prereqs[i] == init[i];
      }
    }
  }

  // ---- tags -----------------------------------------------------------------------------

  /** `t in creatureTraits` on the plain object of creature traits: its own keys, and the
      keys every object inherits. */
  predicate IsCreatureTrait(t: string, env: Env) {
    HasKey(env.config("creatureTraits"), t) || t in InheritedKeys
  }

  /** An ancestry feat without a creature trait is marked as universal. */
  predicate UniversalAncestry(r: ItemRecord, env: Env)
    requires Readable(r)
  {
    Category(r) == Val("ancestry") && forall i | 0 <= i < |Traits(r)| :: !IsCreatureTrait(Traits(r)[i], env)
  }

  /** A trait named like an inherited member, such as `constructor`, counts as a creature
      trait, so an ancestry feat carrying one is not universal. */
  lemma InheritedTraitNotUniversal(r: ItemRecord, env: Env, i: int)
    requires Readable(r) && 0 <= i < |Traits(r)| && Traits(r)[i] in InheritedKeys
    ensures IsCreatureTrait(Traits(r)[i], env) && !UniversalAncestry(r, env)
  {
  }

  /** The publication title or source value, neither converted nor trimmed. */
  function Publication(r: ItemRecord): string {
    PubSource(r.publicationTitle, r.sourceValue)
  }

  function Rarity(r: ItemRecord): JsValue<string> {
    if r.traits.Some? then r.traits.value.rarity else Undefined
  }

  function FoundSkills(r: ItemRecord, env: Env): seq<string>
    requires Readable(r)
  {
    Skills(PrerequisiteTexts(r.prerequisites.value, env), env.config("skills"), env)
  }

  function DomainPairs(r: ItemRecord, env: Env): seq<(string, string)>
    requires Readable(r)
  {
    Pairs("skill", FoundSkills(r, env))
    + (if UniversalAncestry(r, env) then [("trait", "ancestry:universal")] else [])
    + [("category", ShowString(Category(r))), ("type", "feat")]
    + TraitPairs(Traits(r), true)
    + SourcePairs(Publication(r), env.slug)
    + [("level", ShowInt(r.level)), ("rarity", ShowString(Rarity(r)))]
  }

  function Domains(r: ItemRecord, env: Env): set<string>
    requires Readable(r)
  {
    Tags(DomainPairs(r, env))
  }

  /** What the tab makes of one item record. */
  function Build(env: Env, r: ItemRecord): Built {
    if r.kind != "feat" then Ignored
    else if !HasAllIndexFields(p => r.Defines(p), NonCategoryFields) || !CategoryPathFound(r) then Skipped
    else if !Readable(r) then Thrown
    else
      var pub := Publication(r);
      Indexed(
        IndexEntry(r.name, r.originalName, r.img, r.uuid, r.level, Undefined, Undefined, Rarity(r), Undefined,
                   Domains(r, env)),
        if pub != "" then Some(pub) else None,
        None)
  }

  // ---- what the builder promises ------------------------------------------------------

  /** Other records are ignored; a feat is skipped unless it has every field besides the
      category paths and one of the two category paths; a feat whose prerequisite or trait
      list is not an array aborts the load. */
  lemma BuildOutcome(env: Env, r: ItemRecord)
    ensures Build(env, r).Ignored? <==> r.kind != "feat"
    ensures Build(env, r).Skipped? <==>
      r.kind == "feat" && (!HasAllIndexFields(p => r.Defines(p), NonCategoryFields) || !CategoryPathFound(r))
    ensures Build(env, r).Thrown? <==>
      r.kind == "feat" && HasAllIndexFields(p => r.Defines(p), NonCategoryFields) && CategoryPathFound(r) && !Readable(r)
    ensures Build(env, r).Indexed? ==> Build(env, r).entry.level == r.level && Build(env, r).time.None?
  {
  }

  /** A feat with only the deprecated category path is indexed when its other fields are
      there. */
  lemma DeprecatedCategoryAccepted(env: Env, r: ItemRecord)
    requires r.kind == "feat" && r.category.Undefined? && r.featType.FeatTypeObject? && r.featType.value.Val?
    requires HasAllIndexFields(p => r.Defines(p), NonCategoryFields) && Readable(r)
    ensures Build(env, r).Indexed?
    ensures Tag("category", r.featType.value.value) in Build(env, r).entry.domains
  {
    assert r.Defines("system.featType.value");
    assert Build(env, r).entry.domains == Domains(r, env);
    CategoryTag(env, r, r.featType.value.value);
  }

  lemma DomainPairsColonFree(r: ItemRecord, env: Env)
    requires Readable(r)
    ensures ColonFree(DomainPairs(r, env))
  {
    assert NoColon("skill") && NoColon("trait") && NoColon("category") && NoColon("type");
    assert NoColon("level") && NoColon("rarity");
    var s := Pairs("skill", FoundSkills(r, env));
    var u: seq<(string, string)> := if UniversalAncestry(r, env) then [("trait", "ancestry:universal")] else [];
    var c := [("category", ShowString(Category(r))), ("type", "feat")];
    var t := TraitPairs(Traits(r), true);
    var p := SourcePairs(Publication(r), env.slug);
    var l := [("level", ShowInt(r.level)), ("rarity", ShowString(Rarity(r)))];
    PairsColonFree("skill", FoundSkills(r, env));
    assert ColonFree(u) && ColonFree(c) && ColonFree(l);
    TraitPairsColonFree(Traits(r), true);
    SourcePairsColonFree(Publication(r), env.slug);
    ColonFreeAppend(s, u);
    ColonFreeAppend(s + u, c);
    ColonFreeAppend(s + u + c, t);
    ColonFreeAppend(s + u + c + t, p);
    ColonFreeAppend(s + u + c + t + p, l);
  }

  /** The pairs of all the tags, family by family. */
  lemma PairsMemberOfFeat(r: ItemRecord, env: Env, q: string, x: string)
    requires Readable(r)
    ensures (q, x) in DomainPairs(r, env) <==>
      || (q == "skill" && x in FoundSkills(r, env))
      || (q == "trait" && x == "ancestry:universal" && UniversalAncestry(r, env))
      || (q == "category" && x == ShowString(Category(r)))
      || (q == "type" && x == "feat")
      || (q == "trait" && x in StripAll(Traits(r)))
      || (q == "source" && Publication(r) != "" && x == env.slug(Publication(r)))
      || (q == "level" && x == ShowInt(r.level))
      || (q == "rarity" && x == ShowString(Rarity(r)))
  {
    PairsMember("skill", FoundSkills(r, env), q, x);
    TraitPairsMember(Traits(r), true, q, x);
    var sp := SourcePairs(Publication(r), env.slug);
    if (q, x) in sp { assert q == "source"; }
  }

  lemma DomainMember(env: Env, r: ItemRecord, p: string, x: string)
    requires Readable(r) && NoColon(p)
    ensures Tag(p, x) in Domains(r, env) <==> (p, x) in DomainPairs(r, env)
  {
    DomainPairsColonFree(r, env);
    TagsMember(DomainPairs(r, env), p, x);
  }

  /** A `skill:` tag marks exactly the skills some prerequisite names. */
  lemma SkillTag(env: Env, r: ItemRecord, k: string)
    requires Readable(r)
    ensures var ps := PrerequisiteTexts(r.prerequisites.value, env); var table := env.config("skills");
      Tag("skill", k) in Domains(r, env) <==>
      exists i, j | 0 <= i < |ps| && 0 <= j < |table| :: table[j].0 == k && SkillMatches(ps[i], table[j], env)
  {
    assert NoColon("skill");
    DomainMember(env, r, "skill", k);
    PairsMemberOfFeat(r, env, "skill", k);
    SkillsMember(PrerequisiteTexts(r.prerequisites.value, env), env.config("skills"), env, k);
  }

  /** The only `category:` tag is the category, after the deprecated `featType` is taken
      over. */
  lemma CategoryTag(env: Env, r: ItemRecord, x: string)
    requires Readable(r)
    ensures Tag("category", x) in Domains(r, env) <==> x == ShowString(Category(r))
    ensures Tag("type", "feat") in Domains(r, env)
  {
    assert NoColon("category") && NoColon("type");
    DomainMember(env, r, "category", x);
    PairsMemberOfFeat(r, env, "category", x);
    DomainMember(env, r, "type", "feat");
    PairsMemberOfFeat(r, env, "type", "feat");
  }

  /** The `trait:` tags are the traits with a leading `hb_` removed, and
      `ancestry:universal` for an ancestry feat without a creature trait. */
  lemma TraitTag(env: Env, r: ItemRecord, x: string)
    requires Readable(r)
    ensures Tag("trait", x) in Domains(r, env) <==>
      x in StripAll(Traits(r)) || (x == "ancestry:universal" && UniversalAncestry(r, env))
  {
    assert NoColon("trait");
    DomainMember(env, r, "trait", x);
    PairsMemberOfFeat(r, env, "trait", x);
  }

  /** The source string is tagged when it is not empty, untrimmed; the level and the
      rarity are always tagged. */
  lemma SourceLevelRarityTags(env: Env, r: ItemRecord, x: string)
    requires Readable(r)
    ensures Tag("source", x) in Domains(r, env) <==> Publication(r) != "" && x == env.slug(Publication(r))
    ensures Tag("level", ShowInt(r.level)) in Domains(r, env)
    ensures Tag("rarity", ShowString(Rarity(r))) in Domains(r, env)
  {
    assert NoColon("source") && NoColon("level") && NoColon("rarity");
    DomainMember(env, r, "source", x);
    PairsMemberOfFeat(r, env, "source", x);
    DomainMember(env, r, "level", ShowInt(r.level));
    PairsMemberOfFeat(r, env, "level", ShowInt(r.level));
    DomainMember(env, r, "rarity", ShowString(Rarity(r)));
    PairsMemberOfFeat(r, env, "rarity", ShowString(Rarity(r)));
  }

  // ---- filter options ---------------------------------------------------------------

  datatype Lists = Lists(category: seq<LabeledValue>, skills: seq<LabeledValue>, rarity: seq<LabeledValue>,
                         source: seq<LabeledValue>, traits: seq<LabeledValue>)

  /** The option lists `loadData` computes; the trait options end with the universal
      ancestry entry. */
  function OptionLists(c: Collected, env: Env): (o: Lists)
    ensures |o.traits| >= 1 && o.traits[|o.traits| - 1].value == "ancestry:universal"
  {
    Lists(GenerateOptions(env.config("featCategories"), None, env),
          GenerateOptions(env.config("skills"), None, env),
          GenerateOptions(env.config("rarityTraits"), None, env),
          SourceCheckboxOptions(c.publications, env),
          GenerateOptions(env.config("featTraits"), None, env)
          + [LabeledValue(env.localize("PF2E.CompendiumBrowser.Filter.ExtraTraits.UniversalAncestry"), "ancestry:universal")])
  }

  function WithOptions(f: BrowserFilter, c: Collected, env: Env): (r: BrowserFilter)
    requires f.FeatFilters?
    ensures r.FeatFilters?
  {
    var o := OptionLists(c, env);
    f.(category := f.category.(options := o.category),
       skills := f.skills.(options := o.skills),
       rarity := f.rarity.(options := o.rarity),
       source := f.source.(options := o.source),
       traits := f.traits.(options := o.traits))
  }

  /** Loading again yields the same options, so the universal ancestry entry is listed
      once per load; the selections are kept. */
  lemma WithOptionsIdempotent(f: BrowserFilter, c: Collected, env: Env)
    requires f.FeatFilters?
    ensures WithOptions(WithOptions(f, c, env), c, env) == WithOptions(f, c, env)
    ensures var r := WithOptions(f, c, env);
      && r.order == f.order && r.search == f.search && r.level == f.level
      && r.traits.selected == f.traits.selected && r.skills.selected == f.skills.selected
      && r.traits.options[|r.traits.options| - 1].value == "ancestry:universal"
    ensures var r := WithOptions(f, c, env); var o := OptionLists(c, env);
      && r.category.options == o.category
      && r.skills.options == o.skills
      && r.rarity.options == o.rarity
      && r.source.options == o.source
      && r.traits.options == o.traits
  {
  }

  // ---- defaults -------------------------------------------------------------------------

  /** `prepareFilterData`. */
  function Defaults(env: Env): (f: BrowserFilter)
    ensures f.FeatFilters?
    ensures f.level == LevelData(false, false, 0, 20, 0, 20)
    ensures f.order.sortBy == "level" && f.order.direction == Asc && f.order.sortBy in f.order.options
    ensures f.skills.optionPrefix == Some("skill")
  {
    FeatFilters(
      OrderData("level", Asc,
        map["name" := OrderOption("Name", Alpha), "level" := OrderOption("PF2E.LevelLabel", Numeric)],
        Numeric),
      SearchData(""),
      TraitData(And, [], []),
      ChipsData(Or, false, "PF2E.CompendiumBrowser.Filter.Categories", [], None, [], None),
      ChipsData(Or, false, "PF2E.SkillsLabel", [], Some("skill"), [], None),
      ChipsData(Or, false, "PF2E.CompendiumBrowser.Filter.Rarities", [], None, [], None),
      LevelData(false, false, 0, 20, 0, 20),
      CheckboxData(false, "PF2E.CompendiumBrowser.Filter.Source", [], None, []))
  }

  lemma DefaultsArePristine(env: Env)
    ensures Compiler.Pristine(Defaults(env)) && Compiler.Statements(Defaults(env)) == []
  {
    Compiler.PristineIffEmpty(Defaults(env));
  }
}
