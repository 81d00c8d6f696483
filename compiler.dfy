/** `buildPredicate`: the user's filter selections compiled into one conjunction of
    statements over the domain tags of an index entry. */
module Compiler {
  import opened Wrappers
  import opened Strings
  import opened FilterData
  import P = Predication

  /** `values.map((v) => `${prefix}:${v}`)`. */
  function TagAll(prefix: string, values: seq<string>): (r: seq<string>)
    ensures |r| == |values| && forall i :: 0 <= i < |values| ==> r[i] == Tag(prefix, values[i])
  {
    seq(|values|, i requires 0 <= i < |values| => Tag(prefix, values[i]))
  }

  function Leaves(tags: seq<string>): (r: seq<P.Predicate>)
    ensures |r| == |tags| && forall i :: 0 <= i < |tags| ==> r[i] == P.Leaf(tags[i])
  {
    seq(|tags|, i requires 0 <= i < |tags| => P.Leaf(tags[i]))
  }

  /** The values of the chip selections that are not excluded, in order. */
  function IncludedChips(sel: seq<ChipSelection>): (r: seq<string>)
    ensures forall v :: v in r <==> exists s :: s in sel && !s.Excluded() && s.value == v
    decreases |sel|
  {
    if sel == [] then []
    else (if sel[0].Excluded() then [] else [sel[0].value]) + IncludedChips(sel[1..])
  }

  /** The values of the excluded chip selections, in order. */
  function ExcludedChips(sel: seq<ChipSelection>): (r: seq<string>)
    ensures forall v :: v in r <==> exists s :: s in sel && s.Excluded() && s.value == v
    decreases |sel|
  {
    if sel == [] then []
    else (if sel[0].Excluded() then [sel[0].value] else []) + ExcludedChips(sel[1..])
  }

  function IncludedTraits(sel: seq<TraitSelection>): (r: seq<string>)
    ensures forall v :: v in r <==> exists s :: s in sel && !s.Negated() && s.value == v
    decreases |sel|
  {
    if sel == [] then []
    else (if sel[0].Negated() then [] else [sel[0].value]) + IncludedTraits(sel[1..])
  }

  function ExcludedTraits(sel: seq<TraitSelection>): (r: seq<string>)
    ensures forall v :: v in r <==> exists s :: s in sel && s.Negated() && s.value == v
    decreases |sel|
  {
    if sel == [] then []
    else (if sel[0].Negated() then [sel[0].value] else []) + ExcludedTraits(sel[1..])
  }

  /** `{ [conjunction]: statements }`. */
  function Combine(c: Conjunction, ps: seq<P.Predicate>): P.Predicate {
    match c
    case And => P.And(ps)
    case Or => P.Or(ps)
  }

  /** The statements of a group with included and excluded tags. */
  function IncludeExclude(c: Conjunction, included: seq<string>, excluded: seq<string>): seq<P.Predicate> {
    (if |included| > 0 then [Combine(c, Leaves(included))] else [])
    + (if |excluded| > 0 then [P.Not(P.Or(Leaves(excluded)))] else [])
  }

  function CheckboxStatements(key: string, checkbox: CheckboxData): seq<P.Predicate> {
    if |checkbox.selected| == 0 then []
    else [P.And(Leaves(TagAll(PrefixOf(checkbox.optionPrefix, key), checkbox.selected)))]
  }

  function ChipStatements(key: string, chips: ChipsData): seq<P.Predicate> {
    if |chips.selected| == 0 then []
    else
      var prefix := PrefixOf(chips.optionPrefix, key);
      IncludeExclude(chips.conjunction, TagAll(prefix, IncludedChips(chips.selected)),
        TagAll(prefix, ExcludedChips(chips.selected)))
  }

  function LevelStatements(level: LevelData): seq<P.Predicate> {
    if level.from != level.min || level.to != level.max then
      [P.And([P.Gte("level", level.from), P.Lte("level", level.to)])]
    else []
  }

  function RangeStatements(key: string, range: RangesInputData): seq<P.Predicate> {
    if !range.changed then []
    else
      var prefix := PrefixOf(range.optionPrefix, key);
      [P.And([P.Gte(prefix, range.values.min), P.Lte(prefix, range.values.max)])]
  }

  function SelectStatements(key: string, select: SelectData): seq<P.Predicate> {
    if select.selected == "" then [] else [P.Leaf(Tag(PrefixOf(select.optionPrefix, key), select.selected))]
  }

  function SourceStatements(source: CheckboxData): seq<P.Predicate> {
    if |source.selected| > 0 then [P.Or(Leaves(source.selected))] else []
  }

  function TraitStatements(traits: TraitData): seq<P.Predicate> {
    if |traits.selected| == 0 then []
    else IncludeExclude(traits.conjunction, TagAll("trait", IncludedTraits(traits.selected)),
      TagAll("trait", ExcludedTraits(traits.selected)))
  }

  /** The statements of the groups of one kind, concatenated in group order. */
  function Concat<G>(groups: seq<(string, G)>, statements: (string, G) -> seq<P.Predicate>): seq<P.Predicate>
    decreases |groups|
  {
    if groups == [] then []
    else
      var last := groups[|groups| - 1];
      Concat(groups[..|groups| - 1], statements) + statements(last.0, last.1)
  }

  /** The statement list `buildPredicate` pushes, facet by facet. */
  function Statements(f: BrowserFilter): seq<P.Predicate> {
    Concat(f.Checkboxes(), CheckboxStatements)
    + Concat(f.Chips(), ChipStatements)
    + (if f.HasLevel() then LevelStatements(f.level) else [])
    + Concat(f.Ranges(), RangeStatements)
    + Concat(f.Selects(), SelectStatements)
    + SourceStatements(f.source)
    + TraitStatements(f.traits)
  }

  /** Appends the statements of every group of one kind to `acc`. */
  method PushGroups<G>(acc: seq<P.Predicate>, groups: seq<(string, G)>, statements: (string, G) -> seq<P.Predicate>)
    returns (r: seq<P.Predicate>)
    ensures r == acc + Concat(groups, statements)
  {
    r := acc;
    var i := 0;
    while i < |groups|
      invariant 0 <= i <= |groups|
      invariant r == acc + Concat(groups[..i], statements)
    {
      var (key, group) := groups[i];
      r := r + statements(key, group);
      assert groups[..i + 1][..i] == groups[..i];
      i := i + 1;
    }
    assert groups[..i] == groups;
  }

  /** `buildPredicate` for an initialised tab: one top-level conjunction. */
  method BuildPredicate(f: BrowserFilter) returns (p: P.Predicate)
    ensures p == P.And(Statements(f))
  {
    var statements: seq<P.Predicate> := [];
    statements := PushGroups(statements, f.Checkboxes(), CheckboxStatements);
    statements := PushGroups(statements, f.Chips(), ChipStatements);
    ghost var upToChips := statements;
    if f.HasLevel() {
      var level := f.level;
      if level.from != level.min || level.to != level.max {
        statements := statements + [P.And([P.Gte("level", level.from), P.Lte("level", level.to)])];
      }
    }
    assert statements == upToChips + (if f.HasLevel() then LevelStatements(f.level) else []);
    statements := PushGroups(statements, f.Ranges(), RangeStatements);
    statements := PushGroups(statements, f.Selects(), SelectStatements);
    ghost var upToSelects := statements;
    if |f.source.selected| > 0 {
      statements := statements + [P.Or(Leaves(f.source.selected))];
    }
    assert statements == upToSelects + SourceStatements(f.source);
    statements := statements + TraitStatements(f.traits);
    p := P.And(statements);
  }

  // ---- what the compiled predicate means ---------------------------------------------

  /** A checkbox group holds when every selected value is tagged under its prefix. */
  ghost predicate CheckboxMatches(key: string, checkbox: CheckboxData, tags: set<string>) {
    forall v | v in checkbox.selected :: Tag(PrefixOf(checkbox.optionPrefix, key), v) in tags
  }

  /** A chip group holds when no excluded value is tagged, and the included values, if
      any, are all tagged (`and`) or at least one is (`or`). */
  ghost predicate ChipsMatch(key: string, chips: ChipsData, tags: set<string>) {
    var prefix := PrefixOf(chips.optionPrefix, key);
    && (forall s | s in chips.selected && s.Excluded() :: Tag(prefix, s.value) !in tags)
    && ((exists s | s in chips.selected :: !s.Excluded()) ==>
          if chips.conjunction == And then
            forall s | s in chips.selected && !s.Excluded() :: Tag(prefix, s.value) in tags
          else
            exists s | s in chips.selected && !s.Excluded() :: Tag(prefix, s.value) in tags)
  }

  /** The same rule for traits, always under the `trait` prefix. */
  ghost predicate TraitsMatch(traits: TraitData, tags: set<string>) {
    && (forall s | s in traits.selected && s.Negated() :: Tag("trait", s.value) !in tags)
    && ((exists s | s in traits.selected :: !s.Negated()) ==>
          if traits.conjunction == And then
            forall s | s in traits.selected && !s.Negated() :: Tag("trait", s.value) in tags
          else
            exists s | s in traits.selected && !s.Negated() :: Tag("trait", s.value) in tags)
  }

  /** Some tag carries a number for the key at least / at most the bound. */
  ghost predicate HasAtLeast(tags: set<string>, key: string, lo: int) {
    exists t | t in tags :: P.NumberAt(key, t).Some? && P.NumberAt(key, t).value >= lo
  }

  ghost predicate HasAtMost(tags: set<string>, key: string, hi: int) {
    exists t | t in tags :: P.NumberAt(key, t).Some? && P.NumberAt(key, t).value <= hi
  }

  /** The level slider only filters once it has been moved away from its bounds. */
  ghost predicate LevelMatches(level: LevelData, tags: set<string>) {
    (level.from != level.min || level.to != level.max) ==>
      HasAtLeast(tags, "level", level.from) && HasAtMost(tags, "level", level.to)
  }

  /** A range input only filters once it has been changed. */
  ghost predicate RangeMatches(key: string, range: RangesInputData, tags: set<string>) {
    var prefix := PrefixOf(range.optionPrefix, key);
    range.changed ==> HasAtLeast(tags, prefix, range.values.min) && HasAtMost(tags, prefix, range.values.max)
  }

  ghost predicate SelectMatches(key: string, select: SelectData, tags: set<string>) {
    select.selected != "" ==> Tag(PrefixOf(select.optionPrefix, key), select.selected) in tags
  }

  /** Source checkboxes are alternatives: some selected source must be tagged. */
  ghost predicate SourceMatches(source: CheckboxData, tags: set<string>) {
    |source.selected| > 0 ==> exists v | v in source.selected :: v in tags
  }

  /** An entry passes the filter when every facet holds. */
  ghost predicate Matches(f: BrowserFilter, tags: set<string>) {
    && (forall g | g in f.Checkboxes() :: CheckboxMatches(g.0, g.1, tags))
    && (forall g | g in f.Chips() :: ChipsMatch(g.0, g.1, tags))
    && (f.HasLevel() ==> LevelMatches(f.level, tags))
    && (forall g | g in f.Ranges() :: RangeMatches(g.0, g.1, tags))
    && (forall g | g in f.Selects() :: SelectMatches(g.0, g.1, tags))
    && SourceMatches(f.source, tags)
    && TraitsMatch(f.traits, tags)
  }

  lemma TestLeaves(ts: seq<string>, tags: set<string>)
    ensures P.Test(P.And(Leaves(ts)), tags) <==> forall t | t in ts :: t in tags
    ensures P.Test(P.Or(Leaves(ts)), tags) <==> exists t | t in ts :: t in tags
  {
    var ls := Leaves(ts);
    if exists t | t in ts :: t in tags {
      var t :| t in ts && t in tags;
      var i :| 0 <= i < |ts| && ts[i] == t;
      assert P.Test(ls[i], tags);
    }
    if P.Test(P.And(ls), tags) {
      forall t | t in ts ensures t in tags {
        var i :| 0 <= i < |ts| && ts[i] == t;
        assert P.Test(ls[i], tags);
      }
    }
  }

  lemma TestSingle(p: P.Predicate, tags: set<string>)
    ensures P.Test(P.And([p]), tags) <==> P.Test(p, tags)
  {
    assert [p][0] == p;
  }

  lemma TestIncludeExclude(c: Conjunction, included: seq<string>, excluded: seq<string>, tags: set<string>)
    ensures P.Test(P.And(IncludeExclude(c, included, excluded)), tags) <==>
      && (forall t | t in excluded :: t !in tags)
      && (|included| > 0 ==>
            if c == And then forall t | t in included :: t in tags else exists t | t in included :: t in tags)
  {
    var a := if |included| > 0 then [Combine(c, Leaves(included))] else [];
    var b := if |excluded| > 0 then [P.Not(P.Or(Leaves(excluded)))] else [];
    P.TestAndAppend(a, b, tags);
    TestLeaves(included, tags);
    TestLeaves(excluded, tags);
    if |included| > 0 { TestSingle(Combine(c, Leaves(included)), tags); }
    if |excluded| > 0 { TestSingle(P.Not(P.Or(Leaves(excluded))), tags); }
  }

  lemma ChipStatementsMeaning(key: string, chips: ChipsData, tags: set<string>)
    ensures P.Test(P.And(ChipStatements(key, chips)), tags) <==> ChipsMatch(key, chips, tags)
  {
    var prefix := PrefixOf(chips.optionPrefix, key);
    var inc := TagAll(prefix, IncludedChips(chips.selected));
    var exc := TagAll(prefix, ExcludedChips(chips.selected));
    if |chips.selected| > 0 {
      TestIncludeExclude(chips.conjunction, inc, exc, tags);
      TagAllMembership(prefix, IncludedChips(chips.selected));
      TagAllMembership(prefix, ExcludedChips(chips.selected));
      assert (|inc| > 0) == (exists s | s in chips.selected :: !s.Excluded()) by {
        if exists s | s in chips.selected :: !s.Excluded() {
          var s :| s in chips.selected && !s.Excluded();
          assert s.value in IncludedChips(chips.selected);
        }
        if |inc| > 0 {
          assert IncludedChips(chips.selected)[0] in IncludedChips(chips.selected);
        }
      }
    }
  }

  lemma TraitStatementsMeaning(traits: TraitData, tags: set<string>)
    ensures P.Test(P.And(TraitStatements(traits)), tags) <==> TraitsMatch(traits, tags)
  {
    var inc := TagAll("trait", IncludedTraits(traits.selected));
    var exc := TagAll("trait", ExcludedTraits(traits.selected));
    if |traits.selected| > 0 {
      TestIncludeExclude(traits.conjunction, inc, exc, tags);
      TagAllMembership("trait", IncludedTraits(traits.selected));
      TagAllMembership("trait", ExcludedTraits(traits.selected));
      assert (|inc| > 0) == (exists s | s in traits.selected :: !s.Negated()) by {
        if exists s | s in traits.selected :: !s.Negated() {
          var s :| s in traits.selected && !s.Negated();
          assert s.value in IncludedTraits(traits.selected);
        }
        if |inc| > 0 {
          assert IncludedTraits(traits.selected)[0] in IncludedTraits(traits.selected);
        }
      }
    }
  }

  lemma TagAllMembership(prefix: string, values: seq<string>)
    ensures forall t :: t in TagAll(prefix, values) <==> exists v :: v in values && t == Tag(prefix, v)
  {
    var r := TagAll(prefix, values);
    forall t | t in r ensures exists v :: v in values && t == Tag(prefix, v) {
      var i :| 0 <= i < |r| && r[i] == t;
      assert values[i] in values;
    }
    forall v | v in values ensures Tag(prefix, v) in r {
      var i :| 0 <= i < |values| && values[i] == v;
      assert r[i] == Tag(prefix, v);
    }
  }

  lemma CheckboxStatementsMeaning(key: string, checkbox: CheckboxData, tags: set<string>)
    ensures P.Test(P.And(CheckboxStatements(key, checkbox)), tags) <==> CheckboxMatches(key, checkbox, tags)
  {
    var ts := TagAll(PrefixOf(checkbox.optionPrefix, key), checkbox.selected);
    if |checkbox.selected| > 0 {
      TestSingle(P.And(Leaves(ts)), tags);
      TestLeaves(ts, tags);
      TagAllMembership(PrefixOf(checkbox.optionPrefix, key), checkbox.selected);
    }
  }

  lemma RangeStatementsMeaning(key: string, range: RangesInputData, tags: set<string>)
    ensures P.Test(P.And(RangeStatements(key, range)), tags) <==> RangeMatches(key, range, tags)
  {
    if range.changed {
      var prefix := PrefixOf(range.optionPrefix, key);
      var q := P.And([P.Gte(prefix, range.values.min), P.Lte(prefix, range.values.max)]);
      TestSingle(q, tags);
      assert P.Test(q, tags) <==> P.Test(q.all[0], tags) && P.Test(q.all[1], tags);
    }
  }

  lemma LevelStatementsMeaning(level: LevelData, tags: set<string>)
    ensures P.Test(P.And(LevelStatements(level)), tags) <==> LevelMatches(level, tags)
  {
    if level.from != level.min || level.to != level.max {
      var q := P.And([P.Gte("level", level.from), P.Lte("level", level.to)]);
      TestSingle(q, tags);
      assert P.Test(q, tags) <==> P.Test(q.all[0], tags) && P.Test(q.all[1], tags);
    }
  }

  lemma SelectStatementsMeaning(key: string, select: SelectData, tags: set<string>)
    ensures P.Test(P.And(SelectStatements(key, select)), tags) <==> SelectMatches(key, select, tags)
  {
    if select.selected != "" {
      TestSingle(P.Leaf(Tag(PrefixOf(select.optionPrefix, key), select.selected)), tags);
    }
  }

  lemma SourceStatementsMeaning(source: CheckboxData, tags: set<string>)
    ensures P.Test(P.And(SourceStatements(source)), tags) <==> SourceMatches(source, tags)
  {
    if |source.selected| > 0 {
      TestSingle(P.Or(Leaves(source.selected)), tags);
      TestLeaves(source.selected, tags);
    }
  }

  /** A concatenation of group statements holds when each group's statements hold. */
  lemma {:induction false} ConcatMeaning<G>(groups: seq<(string, G)>, statements: (string, G) -> seq<P.Predicate>,
                                             tags: set<string>)
    ensures P.Test(P.And(Concat(groups, statements)), tags) <==>
      forall i | 0 <= i < |groups| :: P.Test(P.And(statements(groups[i].0, groups[i].1)), tags)
    decreases |groups|
  {
    if groups != [] {
      var init := groups[..|groups| - 1];
      var last := groups[|groups| - 1];
      ConcatMeaning(init, statements, tags);
      P.TestAndAppend(Concat(init, statements), statements(last.0, last.1), tags);
      assert forall i | 0 <= i < |init| :: init[i] == groups[i];
    }
  }

  lemma TestAll(s1: seq<P.Predicate>, s2: seq<P.Predicate>, s3: seq<P.Predicate>, s4: seq<P.Predicate>,
                   s5: seq<P.Predicate>, s6: seq<P.Predicate>, s7: seq<P.Predicate>, tags: set<string>)
    ensures P.Test(P.And(s1 + s2 + s3 + s4 + s5 + s6 + s7), tags) <==>
      && P.Test(P.And(s1), tags) && P.Test(P.And(s2), tags) && P.Test(P.And(s3), tags)
      && P.Test(P.And(s4), tags) && P.Test(P.And(s5), tags) && P.Test(P.And(s6), tags) && P.Test(P.And(s7), tags)
  {
    P.TestAndAppend(s1 + s2 + s3 + s4 + s5 + s6, s7, tags);
    P.TestAndAppend(s1 + s2 + s3 + s4 + s5, s6, tags);
    P.TestAndAppend(s1 + s2 + s3 + s4, s5, tags);
    P.TestAndAppend(s1 + s2 + s3, s4, tags);
    P.TestAndAppend(s1 + s2, s3, tags);
    P.TestAndAppend(s1, s2, tags);
  }

  /** A list of chip groups holds exactly when each group does. */
  lemma ChipGroupsMeaning(groups: seq<(string, ChipsData)>, tags: set<string>)
    ensures P.Test(P.And(Concat(groups, ChipStatements)), tags) <==> forall g | g in groups :: ChipsMatch(g.0, g.1, tags)
  {
    ConcatMeaning(groups, ChipStatements, tags);
    forall i | 0 <= i < |groups|
      ensures P.Test(P.And(ChipStatements(groups[i].0, groups[i].1)), tags) <==> ChipsMatch(groups[i].0, groups[i].1, tags) {
      ChipStatementsMeaning(groups[i].0, groups[i].1, tags);
    }
  }

  lemma CheckboxGroupsMeaning(groups: seq<(string, CheckboxData)>, tags: set<string>)
    ensures P.Test(P.And(Concat(groups, CheckboxStatements)), tags) <==> forall g | g in groups :: CheckboxMatches(g.0, g.1, tags)
  {
    ConcatMeaning(groups, CheckboxStatements, tags);
    forall i | 0 <= i < |groups|
      ensures P.Test(P.And(CheckboxStatements(groups[i].0, groups[i].1)), tags) <==> CheckboxMatches(groups[i].0, groups[i].1, tags) {
      CheckboxStatementsMeaning(groups[i].0, groups[i].1, tags);
    }
  }

  lemma RangeGroupsMeaning(groups: seq<(string, RangesInputData)>, tags: set<string>)
    ensures P.Test(P.And(Concat(groups, RangeStatements)), tags) <==> forall g | g in groups :: RangeMatches(g.0, g.1, tags)
  {
    ConcatMeaning(groups, RangeStatements, tags);
    forall i | 0 <= i < |groups|
      ensures P.Test(P.And(RangeStatements(groups[i].0, groups[i].1)), tags) <==> RangeMatches(groups[i].0, groups[i].1, tags) {
      RangeStatementsMeaning(groups[i].0, groups[i].1, tags);
    }
  }

  lemma SelectGroupsMeaning(groups: seq<(string, SelectData)>, tags: set<string>)
    ensures P.Test(P.And(Concat(groups, SelectStatements)), tags) <==> forall g | g in groups :: SelectMatches(g.0, g.1, tags)
  {
    ConcatMeaning(groups, SelectStatements, tags);
    forall i | 0 <= i < |groups|
      ensures P.Test(P.And(SelectStatements(groups[i].0, groups[i].1)), tags) <==> SelectMatches(groups[i].0, groups[i].1, tags) {
      SelectStatementsMeaning(groups[i].0, groups[i].1, tags);
    }
  }

  /** The facet lists of any filter, compiled one after another, hold exactly when each
      facet does; `level` is the level facet's statements and `levelOk` their meaning. */
  lemma FacetsMeaning(checkboxes: seq<(string, CheckboxData)>, chips: seq<(string, ChipsData)>,
                      level: seq<P.Predicate>, levelOk: bool, ranges: seq<(string, RangesInputData)>,
                      selects: seq<(string, SelectData)>, source: CheckboxData, traits: TraitData, tags: set<string>)
    requires P.Test(P.And(level), tags) <==> levelOk
    ensures P.Test(P.And(Concat(checkboxes, CheckboxStatements) + Concat(chips, ChipStatements) + level
                         + Concat(ranges, RangeStatements) + Concat(selects, SelectStatements)
                         + SourceStatements(source) + TraitStatements(traits)), tags) <==>
      && (forall g | g in checkboxes :: CheckboxMatches(g.0, g.1, tags))
      && (forall g | g in chips :: ChipsMatch(g.0, g.1, tags))
      && levelOk
      && (forall g | g in ranges :: RangeMatches(g.0, g.1, tags))
      && (forall g | g in selects :: SelectMatches(g.0, g.1, tags))
      && SourceMatches(source, tags)
      && TraitsMatch(traits, tags)
  {
    TestAll(Concat(checkboxes, CheckboxStatements), Concat(chips, ChipStatements), level,
            Concat(ranges, RangeStatements), Concat(selects, SelectStatements),
            SourceStatements(source), TraitStatements(traits), tags);
    CheckboxGroupsMeaning(checkboxes, tags);
    ChipGroupsMeaning(chips, tags);
    RangeGroupsMeaning(ranges, tags);
    SelectGroupsMeaning(selects, tags);
    SourceStatementsMeaning(source, tags);
    TraitStatementsMeaning(traits, tags);
  }

  /** The compiled predicate holds of a tag set exactly when every facet of the filter
      does. */
  lemma BuildPredicateMeaning(f: BrowserFilter, tags: set<string>)
    ensures P.Test(P.And(Statements(f)), tags) <==> Matches(f, tags)
  {
    var level := if f.HasLevel() then LevelStatements(f.level) else [];
    if f.HasLevel() { LevelStatementsMeaning(f.level, tags); }
    FacetsMeaning(f.Checkboxes(), f.Chips(), level, f.HasLevel() ==> LevelMatches(f.level, tags),
                  f.Ranges(), f.Selects(), f.source, f.traits, tags);
  }

  // ---- what an untouched filter compiles to ------------------------------------------

  /** No facet carries a selection: chips, traits and sources are empty, the level slider
      sits at its bounds, the range is unchanged and the select is empty. */
  predicate Pristine(f: BrowserFilter) {
    && (forall g | g in f.Chips() :: |g.1.selected| == 0)
    && |f.traits.selected| == 0
    && |f.source.selected| == 0
    && (f.HasLevel() ==> f.level.from == f.level.min && f.level.to == f.level.max)
    && (f.EquipmentFilters? ==> !f.price.changed)
    && (f.SpellFilters? ==> f.timefilter.selected == "")
  }

  lemma {:induction false} ConcatEmpty<G>(groups: seq<(string, G)>, statements: (string, G) -> seq<P.Predicate>)
    ensures Concat(groups, statements) == [] <==>
      forall i | 0 <= i < |groups| :: statements(groups[i].0, groups[i].1) == []
    decreases |groups|
  {
    if groups != [] {
      ConcatEmpty(groups[..|groups| - 1], statements);
      assert forall i | 0 <= i < |groups| - 1 :: groups[..|groups| - 1][i] == groups[i];
    }
  }

  lemma ConcatSingle<G>(g: (string, G), statements: (string, G) -> seq<P.Predicate>)
    ensures Concat([g], statements) == statements(g.0, g.1)
  {
    assert [g][..0] == [];
  }

  /** A list of chip groups compiles to nothing exactly when no group has a selection. */
  lemma ChipGroupsEmpty(groups: seq<(string, ChipsData)>)
    ensures Concat(groups, ChipStatements) == [] <==> forall g | g in groups :: |g.1.selected| == 0
  {
    ConcatEmpty(groups, ChipStatements);
    forall i | 0 <= i < |groups| ensures ChipStatements(groups[i].0, groups[i].1) == [] <==> |groups[i].1.selected| == 0 {
      ChipGroupNonEmpty(groups[i].0, groups[i].1);
    }
  }

  lemma AllEmpty<T>(s1: seq<T>, s2: seq<T>, s3: seq<T>, s4: seq<T>, s5: seq<T>, s6: seq<T>, s7: seq<T>)
    ensures s1 + s2 + s3 + s4 + s5 + s6 + s7 == [] <==>
      s1 == [] && s2 == [] && s3 == [] && s4 == [] && s5 == [] && s6 == [] && s7 == []
  {
    assert |s1 + s2 + s3 + s4 + s5 + s6 + s7| == |s1| + |s2| + |s3| + |s4| + |s5| + |s6| + |s7|;
  }

  /** A facet is skipped exactly when nothing is selected in it, so the compiled
      conjunction is empty exactly for a pristine filter. */
  lemma PristineIffEmpty(f: BrowserFilter)
    ensures Statements(f) == [] <==> Pristine(f)
  {
    var s2 := Concat(f.Chips(), ChipStatements);
    var s3 := if f.HasLevel() then LevelStatements(f.level) else [];
    var s4 := Concat(f.Ranges(), RangeStatements);
    var s5 := Concat(f.Selects(), SelectStatements);
    var s6 := SourceStatements(f.source);
    var s7 := TraitStatements(f.traits);
    assert Concat(f.Checkboxes(), CheckboxStatements) == [];
    AllEmpty(Concat(f.Checkboxes(), CheckboxStatements), s2, s3, s4, s5, s6, s7);
    ChipGroupsEmpty(f.Chips());
    TraitGroupNonEmpty(f.traits);
    assert s4 == [] <==> (f.EquipmentFilters? ==> !f.price.changed) by {
      if f.EquipmentFilters? {
        assert f.Ranges() == [("price", f.price)];
        ConcatSingle(("price", f.price), RangeStatements);
      }
    }
    assert s5 == [] <==> (f.SpellFilters? ==> f.timefilter.selected == "") by {
      if f.SpellFilters? {
        assert f.Selects() == [("timefilter", f.timefilter)];
        ConcatSingle(("timefilter", f.timefilter), SelectStatements);
      }
    }
  }

  lemma ChipGroupNonEmpty(key: string, chips: ChipsData)
    ensures ChipStatements(key, chips) == [] <==> |chips.selected| == 0
  {
    if |chips.selected| > 0 {
      var s := chips.selected[0];
      if s.Excluded() { assert s.value in ExcludedChips(chips.selected); }
      else { assert s.value in IncludedChips(chips.selected); }
    }
  }

  lemma TraitGroupNonEmpty(traits: TraitData)
    ensures TraitStatements(traits) == [] <==> |traits.selected| == 0
  {
    if |traits.selected| > 0 {
      var s := traits.selected[0];
      if s.Negated() { assert s.value in ExcludedTraits(traits.selected); }
      else { assert s.value in IncludedTraits(traits.selected); }
    }
  }

  lemma {:induction false} NoIncludedChips(sel: seq<ChipSelection>)
    requires forall s | s in sel :: s.Excluded()
    ensures IncludedChips(sel) == []
    decreases |sel|
  {
    if sel != [] { NoIncludedChips(sel[1..]); }
  }

  lemma {:induction false} NoIncludedTraits(sel: seq<TraitSelection>)
    requires forall s | s in sel :: s.Negated()
    ensures IncludedTraits(sel) == []
    decreases |sel|
  {
    if sel != [] { NoIncludedTraits(sel[1..]); }
  }

  /** A chip group whose every selection is excluded emits only the `not` statement. */
  lemma ExcludeOnlyChips(key: string, chips: ChipsData)
    requires |chips.selected| > 0 && forall s | s in chips.selected :: s.Excluded()
    ensures ChipStatements(key, chips) ==
      [P.Not(P.Or(Leaves(TagAll(PrefixOf(chips.optionPrefix, key), ExcludedChips(chips.selected)))))]
  {
    NoIncludedChips(chips.selected);
    assert chips.selected[0].value in ExcludedChips(chips.selected);
  }

  /** The same for a trait group that only negates. */
  lemma NegateOnlyTraits(traits: TraitData)
    requires |traits.selected| > 0 && forall s | s in traits.selected :: s.Negated()
    ensures TraitStatements(traits) == [P.Not(P.Or(Leaves(TagAll("trait", ExcludedTraits(traits.selected)))))]
  {
    NoIncludedTraits(traits.selected);
    assert traits.selected[0].value in ExcludedTraits(traits.selected);
  }

  /** For an entry tagged with a single level, a moved level slider keeps exactly the
      entries whose level lies between `from` and `to`, both included. */
  lemma LevelWindow(level: LevelData, n: int, tags: set<string>)
    requires P.SingleNumber("level", n, tags)
    requires level.from != level.min || level.to != level.max
    ensures LevelMatches(level, tags) <==> level.from <= n <= level.to
  {
    P.InclusiveRange("level", n, level.from, level.to, tags);
    LevelStatementsMeaning(level, tags);
    TestSingle(P.And([P.Gte("level", level.from), P.Lte("level", level.to)]), tags);
  }
}
