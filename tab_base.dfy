/** The shared tab of the compendium browser: each tab's loader, option lists and
    default filter chosen by tab name, and the tab object with its lifecycle (`init`,
    `open`, `getFilterData`, `resetFilters`) and its result list. */
module TabBase {
  import opened Wrappers
  import opened FilterData
  import opened Documents
  import opened Records
  import opened Options
  import Results
  import Compiler
  import P = Predication
  import EquipmentTab
  import SpellTab
  import FeatTab
  import HazardTab
  import BestiaryTab
  import ActionTab
  import CampaignFeatureTab

  /** `CompendiumBrowser.RESULT_LIMIT`. */
  const ResultLimit: int := 100

  /** `isGMOnly`: the hazard and bestiary tabs override it to true. */
  predicate IsGMOnly(t: TabName) {
    t == Hazard || t == Bestiary
  }

  /** Whether the tab reads actor packs rather than item packs. */
  predicate ReadsActors(t: TabName) {
    t == Hazard || t == Bestiary
  }

  /** `loadData` up to assigning the index: every loaded record run through the tab's
      builder; `None` when a record throws. */
  function Load(t: TabName, items: seq<Pack<ItemRecord>>, actors: seq<Pack<ActorRecord>>, env: Env): Option<Collected> {
    match t
    case Action => CollectAll(Flatten(items), (r: ItemRecord) => ActionTab.Build(env, r))
    case Bestiary => CollectAll(Flatten(actors), (r: ActorRecord) => BestiaryTab.Build(env, r))
    case CampaignFeature => CollectAll(Flatten(items), (r: ItemRecord) => CampaignFeatureTab.Build(env, r))
    case Equipment => CollectAll(Flatten(items), (r: ItemRecord) => EquipmentTab.Build(env, r))
    case Feat => CollectAll(Flatten(items), (r: ItemRecord) => FeatTab.Build(env, r))
    case Hazard => CollectAll(Flatten(actors), (r: ActorRecord) => HazardTab.Build(env, r))
    case Spell => CollectAll(Flatten(items), (r: ItemRecord) => SpellTab.Build(env, r))
  }

  /** The same load, record by record. */
  method LoadData(t: TabName, items: seq<Pack<ItemRecord>>, actors: seq<Pack<ActorRecord>>, env: Env)
    returns (r: Option<Collected>)
    ensures r == Load(t, items, actors, env)
  {
    match t
    case Action => r := LoadEntries(items, (r: ItemRecord) => ActionTab.Build(env, r));
    case Bestiary => r := LoadEntries(actors, (r: ActorRecord) => BestiaryTab.Build(env, r));
    case CampaignFeature => r := LoadEntries(items, (r: ItemRecord) => CampaignFeatureTab.Build(env, r));
    case Equipment => r := LoadEntries(items, (r: ItemRecord) => EquipmentTab.Build(env, r));
    case Feat => r := LoadEntries(items, (r: ItemRecord) => FeatTab.Build(env, r));
    case Hazard => r := LoadEntries(actors, (r: ActorRecord) => HazardTab.Build(env, r));
    case Spell => r := LoadEntries(items, (r: ItemRecord) => SpellTab.Build(env, r));
  }

  /** `loadData` after the index: the option lists assigned onto the filter. */
  function WithOptions(t: TabName, f: BrowserFilter, c: Collected, env: Env): (r: BrowserFilter)
    requires f.Tab() == t
    ensures r.Tab() == t
  {
    match t
    case Action => ActionTab.WithOptions(f, c, env)
    case Bestiary => BestiaryTab.WithOptions(f, c, env)
    case CampaignFeature => CampaignFeatureTab.WithOptions(f, c, env)
    case Equipment => EquipmentTab.WithOptions(f, c, env)
    case Feat => FeatTab.WithOptions(f, c, env)
    case Hazard => HazardTab.WithOptions(f, c, env)
    case Spell => SpellTab.WithOptions(f, c, env)
  }

  /** `prepareFilterData`. */
  function PrepareFilterData(t: TabName, env: Env): (r: BrowserFilter)
    ensures r.Tab() == t
  {
    match t
    case Action => ActionTab.Defaults()
    case Bestiary => BestiaryTab.Defaults()
    case CampaignFeature => CampaignFeatureTab.Defaults()
    case Equipment => EquipmentTab.Defaults(env)
    case Feat => FeatTab.Defaults(env)
    case Hazard => HazardTab.Defaults()
    case Spell => SpellTab.Defaults(env)
  }

  /** A freshly prepared filter selects nothing, so every entry passes it. */
  lemma PreparedFilterPassesAll(t: TabName, env: Env, tags: set<string>)
    ensures Compiler.Matches(PrepareFilterData(t, env), tags)
  {
    PreparedFilterSelectsNothing(t, env);
    Compiler.BuildPredicateMeaning(PrepareFilterData(t, env), tags);
  }

  lemma PreparedFilterSelectsNothing(t: TabName, env: Env)
    ensures Compiler.Statements(PrepareFilterData(t, env)) == []
  {
    match t
    case Action => ActionTab.DefaultsArePristine();
    case Bestiary => BestiaryTab.DefaultsArePristine();
    case CampaignFeature => CampaignFeatureTab.DefaultsArePristine();
    case Equipment => EquipmentTab.DefaultsArePristine(env);
    case Feat => FeatTab.DefaultsArePristine(env);
    case Hazard => HazardTab.DefaultsArePristine();
    case Spell => SpellTab.DefaultsArePristine(env);
  }

  /** The part of a tab that `init` may change. */
  datatype TabState = TabState(filterData: Option<BrowserFilter>, defaultFilterData: Option<BrowserFilter>,
                               indexData: seq<IndexEntry>, searchDocuments: seq<IndexEntry>, isInitialized: bool)

  /** `init` on a tab of kind `t` in state `s`, with whether it throws. An initialised
      tab is left alone unless forced. Otherwise the packs are loaded: a record that
      throws rejects with nothing changed, and a missing filter rejects after the index
      is assigned. On success the filter gets the option lists, the search engine the
      index, the defaults a copy of the filter, and the tab is initialised. */
  function InitSpec(t: TabName, s: TabState, force: bool, items: seq<Pack<ItemRecord>>, actors: seq<Pack<ActorRecord>>,
                    env: Env): (r: (TabState, bool))
    requires s.filterData.Some? ==> s.filterData.value.Tab() == t
    ensures s.isInitialized && !force ==> r == (s, false)
    ensures r.1 <==> !(s.isInitialized && !force) && (Load(t, items, actors, env).None? || s.filterData.None?)
    ensures r.1 && Load(t, items, actors, env).None? ==> r.0 == s
    ensures r.1 ==> r.0.(indexData := s.indexData) == s
    ensures !r.1 ==> r.0.isInitialized
    ensures !r.1 && !(s.isInitialized && !force) ==> r.0.defaultFilterData == r.0.filterData && r.0.searchDocuments == r.0.indexData
    ensures r.0.filterData.Some? ==> r.0.filterData.value.Tab() == t
  {
    if s.isInitialized && !force then (s, false)
    else
      var loaded := Load(t, items, actors, env);
      if loaded.None? then (s, true)
      else if s.filterData.None? then (s.(indexData := loaded.value.entries), true)
      else
        var f := Some(WithOptions(t, s.filterData.value, loaded.value, env));
        (TabState(f, f, loaded.value.entries, loaded.value.entries, true), false)
  }

  /** A tab of the browser. */
  class CompendiumTab {
    const tabName: TabName
    var filterData: Option<BrowserFilter>
    /** The copy taken at the end of `init`, which `resetFilters` restores. */
    var defaultFilterData: Option<BrowserFilter>
    var indexData: seq<IndexEntry>
    /** The entries handed to the search engine. */
    var searchDocuments: seq<IndexEntry>
    var isInitialized: bool
    var visible: bool
    var resultLimit: int

    /** Every filter the tab holds is of its own kind, and an initialised tab has its
        filter and its defaults. */
    ghost predicate Valid()
      reads this
    {
      && (filterData.Some? ==> filterData.value.Tab() == tabName)
      && (defaultFilterData.Some? ==> defaultFilterData.value.Tab() == tabName)
      && (isInitialized ==> defaultFilterData.Some? && filterData.Some?)
    }

    function State(): TabState
      reads this
    {
      TabState(filterData, defaultFilterData, indexData, searchDocuments, isInitialized)
    }

    /** The base class's constructor: the tab starts with no filter. */
    constructor(t: TabName)
      ensures Valid()
      ensures tabName == t && filterData == None && defaultFilterData == None
      ensures indexData == [] && searchDocuments == [] && !isInitialized && visible && resultLimit == ResultLimit
    {
      tabName := t;
      filterData := None;
      defaultFilterData := None;
      indexData := [];
      searchDocuments := [];
      isInitialized := false;
      visible := true;
      resultLimit := ResultLimit;
    }

    /** The tab's own constructor: it sets the filter to the prepared one. */
    method SetPreparedFilter(env: Env)
      requires Valid()
      modifies this`filterData
      ensures Valid() && filterData == Some(PrepareFilterData(tabName, env))
    {
      var f := PrepareFilterData(tabName, env);
      filterData := Some(f);
    }

    /** `init`, changing the tab as InitSpec says; the visibility and the result limit
        stay. `items` and `actors` stand for what the pack loader yields. */
    method Init(force: bool, items: seq<Pack<ItemRecord>>, actors: seq<Pack<ActorRecord>>, env: Env)
      returns (thrown: bool)
      requires Valid()
      modifies this
      ensures Valid()
      ensures (State(), thrown) == InitSpec(tabName, old(State()), force, items, actors, env)
      ensures visible == old(visible) && resultLimit == old(resultLimit)
    {
      if isInitialized && !force {
        return false;
      }
      var loaded := LoadData(tabName, items, actors, env);
      if loaded.None? {
        return true;
      }
      indexData := loaded.value.entries;
      if filterData.None? {
        return true;
      }
      Adopt(loaded.value, env);
      thrown := false;
    }

    /** The end of a successful `init`: the option lists are assigned, the search engine
        gets the index, and the filter is copied as the defaults. */
    method Adopt(c: Collected, env: Env)
      requires Valid() && filterData.Some?
      modifies this`filterData, this`searchDocuments, this`defaultFilterData, this`isInitialized
      ensures Valid() && isInitialized && searchDocuments == indexData
      ensures filterData == Some(WithOptions(tabName, old(filterData).value, c, env))
      ensures defaultFilterData == filterData
    {
      var f := WithOptions(tabName, filterData.value, c, env);
      filterData := Some(f);
      searchDocuments := indexData;
      defaultFilterData := filterData;
      isInitialized := true;
    }

    /** `open`: passing a filter to a tab that is not initialised throws; otherwise the
        browser opens the tab. */
    method Open(hasFilter: bool) returns (r: Result<TabName, string>)
      ensures r.Err? <==> hasFilter && !isInitialized
      ensures r.Ok? ==> r.value == tabName
    {
      if hasFilter && !isInitialized {
        return Err("Tried to pass filter data to an uninitialized tab!");
      }
      return Ok(tabName);
    }

    /** `getFilterData`: initialises the tab when it is not, then hands out its
        defaults. */
    method GetFilterData(items: seq<Pack<ItemRecord>>, actors: seq<Pack<ActorRecord>>, env: Env)
      returns (thrown: bool, f: Option<BrowserFilter>)
      requires Valid()
      modifies this
      ensures Valid()
      ensures old(isInitialized) ==> !thrown && unchanged(this)
      ensures !old(isInitialized) ==> (State(), thrown) == InitSpec(tabName, old(State()), false, items, actors, env)
      ensures visible == old(visible) && resultLimit == old(resultLimit)
      ensures f == if thrown then None else defaultFilterData
      ensures !thrown ==> isInitialized && f.Some? && f.value.Tab() == tabName
    {
      if !isInitialized {
        thrown := Init(false, items, actors, env);
        if thrown {
          return true, None;
        }
      }
      return false, defaultFilterData;
    }

    /** `resetFilters`. */
    method ResetFilters()
      requires Valid()
      modifies this`filterData
      ensures Valid() && filterData == defaultFilterData
    {
      filterData := defaultFilterData;
    }

    /** `results`, with `hits` standing for the search engine's answer and `query` for the
        cleaned search text. The sort works on the index array itself when the query is
        empty, so the index keeps the sorted order afterwards. */
    method ResultList(hits: seq<IndexEntry>, query: string, collate: (string, string) -> int)
      returns (r: seq<IndexEntry>)
      modifies this`indexData
      ensures r == Results.ResultList(filterData, old(indexData), hits, query, collate)
      ensures indexData == if filterData.Some? && query == "" then Results.SortResult(old(indexData), filterData.value.order, collate)
        else old(indexData)
    {
      if filterData.None? {
        return [];
      }
      var source := if query != "" then hits else indexData;
      var a := new IndexEntry[|source|](i requires 0 <= i < |source| => source[i]);
      assert a[..] == source;
      Results.SortResultInPlace(a, filterData.value.order, collate);
      if query == "" {
        indexData := a[..];
      }
      r := Results.Filter(a[..], P.And(Compiler.Statements(filterData.value)));
    }
  }
}
