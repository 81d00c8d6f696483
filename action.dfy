/** The action tab: the field check, the passive-action icon, the action-type, trait,
    source and category tags, its option lists and its default filter. */
module ActionTab {
  import opened Wrappers
  import opened FilterData
  import opened Documents
  import opened Records
  import opened Options
  import Strings
  import Compiler

  /** The list as the tab writes it, `system.actionType.value` twice. */
  const IndexFields: seq<string> := ["img", "system.actionType.value", "system.category", "system.traits.value",
                                      "system.actionType.value", "system.publication", "system.source"]

  /** The record can be read past the field check: its trait list is an array. */
  predicate Readable(r: ItemRecord) {
    r.traits.Some? && r.traits.value.value.Val?
  }

  function Traits(r: ItemRecord): seq<string>
    requires Readable(r)
  {
    r.traits.value.value.value
  }

  function Publication(r: ItemRecord): string {
    Strings.Trim(PubSource(r.publicationTitle, r.sourceValue))
  }

  /** A passive action gets the passive action icon in place of its own image. */
  function Image(r: ItemRecord, env: Env): (img: JsValue<string>)
    ensures r.actionType == Val("passive") ==> img == Val(env.passiveIcon)
    ensures r.actionType != Val("passive") ==> img == r.img
  {
    if r.actionType == Val("passive") then Val(env.passiveIcon) else r.img
  }

  function DomainPairs(r: ItemRecord, env: Env): seq<(string, string)>
    requires Readable(r)
  {
    [("action-type", ShowString(r.actionType))]
    + TraitPairs(Traits(r), true)
    + SourcePairs(Publication(r), env.slug)
    + [("type", "action"), ("category", ShowString(r.category))]
  }

  function Domains(r: ItemRecord, env: Env): set<string>
    requires Readable(r)
  {
    Tags(DomainPairs(r, env))
  }

  /** What the tab makes of one item record; an action entry has no level and no rarity. */
  function Build(env: Env, r: ItemRecord): Built {
    if r.kind != "action" then Ignored
    else if !HasAllIndexFields(p => r.Defines(p), IndexFields) then Skipped
    else if !Readable(r) then Thrown
    else
      var pub := Publication(r);
      Indexed(BaseEntry(r.name, r.originalName, Image(r, env), r.uuid, Undefined, Domains(r, env)),
              if pub != "" then Some(pub) else None,
              None)
  }

  // ---- what the builder promises ------------------------------------------------------

  /** Other items are ignored; an action missing a checked field is skipped; an action
      whose trait list is `null` aborts the load; an indexed action carries no level, no
      rank and no rarity, and shows the passive icon exactly when it is passive. */
  lemma BuildOutcome(env: Env, r: ItemRecord)
    ensures Build(env, r).Ignored? <==> r.kind != "action"
    ensures Build(env, r).Skipped? <==> r.kind == "action" && !HasAllIndexFields(p => r.Defines(p), IndexFields)
    ensures Build(env, r).Thrown? <==>
      r.kind == "action" && HasAllIndexFields(p => r.Defines(p), IndexFields) && !Readable(r)
    ensures Build(env, r).Indexed? ==>
      var e := Build(env, r).entry;
      && e.level.Undefined? && e.rank.Undefined? && e.rarity.Undefined? && Build(env, r).time.None?
      && (r.actionType == Val("passive") ==> e.img == Val(env.passiveIcon))
      && (r.actionType != Val("passive") ==> e.img == r.img)
  {
  }

  lemma DomainPairsColonFree(r: ItemRecord, env: Env)
    requires Readable(r)
    ensures ColonFree(DomainPairs(r, env))
  {
    assert Strings.NoColon("action-type") && Strings.NoColon("type") && Strings.NoColon("category");
    var a := [("action-type", ShowString(r.actionType))];
    var t := TraitPairs(Traits(r), true);
    var s := SourcePairs(Publication(r), env.slug);
    var c := [("type", "action"), ("category", ShowString(r.category))];
    assert ColonFree(a) && ColonFree(c);
    TraitPairsColonFree(Traits(r), true);
    SourcePairsColonFree(Publication(r), env.slug);
    ColonFreeAppend(a, t);
    ColonFreeAppend(a + t, s);
    ColonFreeAppend(a + t + s, c);
  }

  /** The pairs of all the tags, family by family. */
  lemma PairsMemberOfAction(r: ItemRecord, env: Env, q: string, x: string)
    requires Readable(r)
    ensures (q, x) in DomainPairs(r, env) <==>
      || (q == "action-type" && x == ShowString(r.actionType))
      || (q == "trait" && x in StripAll(Traits(r)))
      || (q == "source" && Publication(r) != "" && x == env.slug(Publication(r)))
      || (q == "type" && x == "action")
      || (q == "category" && x == ShowString(r.category))
  {
    TraitPairsMember(Traits(r), true, q, x);
    var sp := SourcePairs(Publication(r), env.slug);
    if (q, x) in sp { assert q == "source"; }
  }

  lemma DomainMember(env: Env, r: ItemRecord, p: string, x: string)
    requires Readable(r) && Strings.NoColon(p)
    ensures Strings.Tag(p, x) in Domains(r, env) <==> (p, x) in DomainPairs(r, env)
  {
    DomainPairsColonFree(r, env);
    TagsMember(DomainPairs(r, env), p, x);
  }

  /** An action carries exactly one action-type tag and one category tag. */
  lemma TypeAndCategoryTags(env: Env, r: ItemRecord, x: string)
    requires Readable(r)
    ensures Strings.Tag("action-type", x) in Domains(r, env) <==> x == ShowString(r.actionType)
    ensures Strings.Tag("category", x) in Domains(r, env) <==> x == ShowString(r.category)
    ensures Strings.Tag("type", "action") in Domains(r, env)
  {
    assert Strings.NoColon("action-type") && Strings.NoColon("category") && Strings.NoColon("type");
    DomainMember(env, r, "action-type", x);
    PairsMemberOfAction(r, env, "action-type", x);
    DomainMember(env, r, "category", x);
    PairsMemberOfAction(r, env, "category", x);
    DomainMember(env, r, "type", "action");
    PairsMemberOfAction(r, env, "type", "action");
  }

  /** The `trait:` tags are the traits with a leading `hb_` removed; the trimmed source
      string is tagged when it is not empty. */
  lemma TraitAndSourceTags(env: Env, r: ItemRecord, x: string)
    requires Readable(r)
    ensures Strings.Tag("trait", x) in Domains(r, env) <==> x in StripAll(Traits(r))
    ensures Strings.Tag("source", x) in Domains(r, env) <==> Publication(r) != "" && x == env.slug(Publication(r))
  {
    assert Strings.NoColon("trait") && Strings.NoColon("source");
    DomainMember(env, r, "trait", x);
    PairsMemberOfAction(r, env, "trait", x);
    DomainMember(env, r, "source", x);
    PairsMemberOfAction(r, env, "source", x);
  }

  // ---- filter options ---------------------------------------------------------------

  datatype Lists = Lists(traits: seq<LabeledValue>, types: seq<LabeledValue>, category: seq<LabeledValue>,
                         source: seq<LabeledValue>)

  /** The option lists `loadData` computes, each sorted by label; of the action
      categories only `familiar` is offered. */
  function OptionLists(c: Collected, env: Env): Lists {
    Lists(GenerateOptions(env.config("actionTraits"), None, env),
          GenerateOptions(env.config("actionTypes"), None, env),
          GenerateOptions(Pick(env.config("actionCategories"), ["familiar"]), None, env),
          SourceCheckboxOptions(c.publications, env))
  }

  /** The category chips offer `familiar` and nothing else, and offer it exactly when the
      configured categories have it. */
  lemma CategoryOptionsFamiliarOnly(c: Collected, env: Env)
    ensures var t := env.config("actionCategories"); var o := OptionLists(c, env).category;
      |o| == (if HasKey(t, "familiar") then 1 else 0) && forall k | 0 <= k < |o| :: o[k].value == "familiar"
  {
    var t := env.config("actionCategories");
    var picked := Pick(t, ["familiar"]);
    assert ["familiar"][1..] == [];
    assert Pick(t, ["familiar"][1..]) == [];
    if HasKey(t, "familiar") {
      assert picked == [("familiar", Lookup(t, "familiar").value)];
    } else {
      assert picked == [];
    }
    GenerateOptionsValues(picked, None, env);
    var o := OptionLists(c, env).category;
    forall k | 0 <= k < |o| ensures o[k].value == "familiar" {
      assert o[k] in o;
      var i :| 0 <= i < |picked| && o[k].value == OptionValue(None, picked[i].0);
      assert picked[i] in picked;
    }
  }

  function WithOptions(f: BrowserFilter, c: Collected, env: Env): (r: BrowserFilter)
    requires f.ActionFilters?
    ensures r.ActionFilters?
  {
    var o := OptionLists(c, env);
    f.(traits := f.traits.(options := o.traits),
       types := f.types.(options := o.types),
       category := f.category.(options := o.category),
       source := f.source.(options := o.source))
  }

  /** Loading again yields the same options; the selections, the order and the search are
      kept. */
  lemma WithOptionsIdempotent(f: BrowserFilter, c: Collected, env: Env)
    requires f.ActionFilters?
    ensures WithOptions(WithOptions(f, c, env), c, env) == WithOptions(f, c, env)
    ensures var r := WithOptions(f, c, env);
      && r.order == f.order && r.search == f.search
      && r.traits.selected == f.traits.selected && r.types.selected == f.types.selected
      && r.category.selected == f.category.selected && r.source.selected == f.source.selected
      && r.source.options == SourceCheckboxOptions(c.publications, env)
    ensures var r := WithOptions(f, c, env); var o := OptionLists(c, env);
      && r.traits.options == o.traits
      && r.types.options == o.types
      && r.category.options == o.category
      && r.source.options == o.source
  {
  }

  // ---- defaults -------------------------------------------------------------------------

  /** `prepareFilterData`: the only order is by name. */
  function Defaults(): (f: BrowserFilter)
    ensures f.ActionFilters? && !f.HasLevel()
    ensures f.order.sortBy == "name" && f.order.direction == Asc && f.order.options.Keys == {"name"}
    ensures f.types.optionPrefix == Some("action-type") && f.types.isExpanded && f.category.isExpanded
  {
    ActionFilters(
      OrderData("name", Asc, map["name" := OrderOption("Name", Alpha)], Alpha),
      SearchData(""),
      TraitData(And, [], []),
      ChipsData(Or, true, "PF2E.ActionActionTypeLabel", [], Some("action-type"), [], None),
      ChipsData(Or, true, "PF2E.CompendiumBrowser.Filter.Categories", [], None, [], None),
      CheckboxData(false, "PF2E.CompendiumBrowser.Filter.Source", [], None, []))
  }

  lemma DefaultsArePristine()
    ensures Compiler.Pristine(Defaults()) && Compiler.Statements(Defaults()) == []
  {
    Compiler.PristineIffEmpty(Defaults());
  }
}
