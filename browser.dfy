/** The compendium browser: the per-tab pack settings built from the game's packs, the
    packs each tab loads, opening a tab with its guards and tab visibility, closing, and
    re-initialising the tabs. */
module Browser {
  import opened Wrappers
  import opened Strings
  import opened FilterData
  import opened Documents
  import opened Records
  import opened Options
  import Sorting
  import TabBase

  // ---- pack settings --------------------------------------------------------------------

  datatype PackInfo = PackInfo(load: bool, name: string, packageName: string)

  /** A compendium pack of the game: its collection id, label, package and the types of
      the entries in its index. */
  datatype GamePack = GamePack(collection: string, packLabel: string, packageName: string, entryTypes: seq<string>)

  type PackEntry = (string, PackInfo)

  /** The pack settings: per tab, the collections in the object's key order. */
  type Settings = map<TabName, seq<PackEntry>>

  /** The collections loaded unless a setting says otherwise. */
  const LoadDefaultCollections: set<string> := {
    "pf2e.actionspf2e", "pf2e.familiar-abilities", "pf2e.equipment-srd", "pf2e.ancestryfeatures",
    "pf2e.classfeatures", "pf2e.feats-srd", "pf2e.spells-srd", "pf2e.kingmaker-features"}

  /** The tab that shows entries of a type; `physical` stands for the physical item
      types, which all go to the equipment tab. */
  function TypeToTab(kind: string, physical: set<string>): Option<TabName> {
    if kind in physical then Some(Equipment)
    else if kind == "action" then Some(Action)
    else if kind == "campaignFeature" then Some(CampaignFeature)
    else if kind == "feat" then Some(Feat)
    else if kind == "kit" then Some(Equipment)
    else if kind == "hazard" then Some(Hazard)
    else if kind == "npc" then Some(Bestiary)
    else if kind == "spell" then Some(Spell)
    else None
  }

  /** The tabs a pack is listed in: each tab one of its entry types maps to, once, in
      the order of first appearance. */
  function TabsOf(kinds: seq<string>, physical: set<string>): (r: seq<TabName>)
    ensures NoDuplicates(r)
    ensures forall t :: t in r <==> exists kind | kind in kinds :: TypeToTab(kind, physical) == Some(t)
    decreases |kinds|
  {
    if kinds == [] then []
    else
      var init := kinds[..|kinds| - 1];
      var earlier := TabsOf(init, physical);
      var m := TypeToTab(kinds[|kinds| - 1], physical);
      assert kinds == init + [kinds[|kinds| - 1]];
      if m.Some? && m.value !in earlier then earlier + [m.value] else earlier
  }

  function Entries(s: Settings, t: TabName): seq<PackEntry> {
    if t in s then s[t] else []
  }

  function Collections(entries: seq<PackEntry>): set<string> {
    set e | e in entries :: e.0
  }

  /** The stored info of a collection, as an object lookup. */
  function FindPack(entries: seq<PackEntry>, collection: string): (r: Option<PackInfo>)
    ensures r.Some? ==> (collection, r.value) in entries
    ensures r.None? ==> collection !in Collections(entries)
    decreases |entries|
  {
    if entries == [] then None
    else if entries[0].0 == collection then Some(entries[0].1)
    else FindPack(entries[1..], collection)
  }

  /** Whether a tab loads a collection: the stored choice, else true for the bestiary
      and hazard tabs, else whether the collection is one loaded by default. */
  function LoadFlag(stored: Settings, t: TabName, collection: string): bool {
    var found := FindPack(Entries(stored, t), collection);
    if found.Some? then found.value.load
    else t == Bestiary || t == Hazard || collection in LoadDefaultCollections
  }

  /** Assigning a key of an object: replaced where it is, otherwise appended. */
  function SetEntry(entries: seq<PackEntry>, collection: string, info: PackInfo): (r: seq<PackEntry>)
    ensures Collections(r) == Collections(entries) + {collection}
    ensures (collection, info) in r
    ensures forall e | e in r :: e == (collection, info) || e in entries
    decreases |entries|
  {
    if entries == [] then [(collection, info)]
    else if entries[0].0 == collection then
      assert forall e | e in entries[1..] :: e in entries;
      [(collection, info)] + entries[1..]
    else
      var rest := SetEntry(entries[1..], collection, info);
      assert forall e | e in entries[1..] :: e in entries;
      assert Collections(entries) == {entries[0].0} + Collections(entries[1..]);
      [entries[0]] + rest
  }

  /** Assigning a key keeps the keys distinct. */
  lemma {:induction false} SetEntryDistinct(entries: seq<PackEntry>, collection: string, info: PackInfo)
    requires Sorting.DistinctBy(entries, (e: PackEntry) => e.0)
    ensures Sorting.DistinctBy(SetEntry(entries, collection, info), (e: PackEntry) => e.0)
    decreases |entries|
  {
    if entries != [] && entries[0].0 != collection {
      var tail := entries[1..];
      assert Sorting.DistinctBy(tail, (e: PackEntry) => e.0);
      SetEntryDistinct(tail, collection, info);
      var rest := SetEntry(tail, collection, info);
      forall i | 0 <= i < |rest| ensures rest[i].0 != entries[0].0 {
        var e := rest[i];
        assert e in rest;
        if e != (collection, info) {
          var k :| 0 <= k < |tail| && tail[k] == e;
          assert entries[k + 1] == e;
        }
      }
    }
  }

  /** One pack registered under each of its tabs. */
  function Register(acc: Settings, pack: GamePack, tabs: seq<TabName>, stored: Settings): (r: Settings)
    ensures r.Keys == acc.Keys + set t | t in tabs
    decreases |tabs|
  {
    if tabs == [] then acc
    else
      var prior := Register(acc, pack, tabs[..|tabs| - 1], stored);
      var t := tabs[|tabs| - 1];
      assert forall u | u in tabs[..|tabs| - 1] :: u in tabs;
      assert forall u | u in tabs :: u in tabs[..|tabs| - 1] || u == t;
      prior[t := SetEntry(Entries(prior, t), pack.collection, InfoFor(stored, t, pack))]
  }

  const NoPacks: Settings := map[Action := [], Bestiary := [], CampaignFeature := [], Equipment := [],
                                 Feat := [], Hazard := [], Spell := []]

  /** The packs walked in order, each registered under its tabs. */
  function Collect(packs: seq<GamePack>, stored: Settings, physical: set<string>): Settings
    decreases |packs|
  {
    if packs == [] then NoPacks
    else
      var last := packs[|packs| - 1];
      Register(Collect(packs[..|packs| - 1], stored, physical), last, TabsOf(last.entryTypes, physical), stored)
  }

  /** The name comparator of the settings sort: 1 when the first name is greater in
      UTF-16 code-unit order (the order of `>`), -1 otherwise (never 0). */
  function ByName(): (PackEntry, PackEntry) -> int {
    (a: PackEntry, b: PackEntry) => if LexLess(b.1.name, a.1.name) then 1 else -1
  }

  /** `initCompendiumList`: the settings of every tab, sorted by pack name. */
  function CompendiumList(stored: Settings, packs: seq<GamePack>, physical: set<string>): Settings {
    var c := Collect(packs, stored, physical);
    map t | t in c :: Sorting.InsertionSort(c[t], ByName())
  }

  // ---- what the settings hold -----------------------------------------------------------

  lemma NoPacksKeys()
    ensures forall t: TabName :: t in NoPacks && NoPacks[t] == []
  {
    forall t: TabName ensures t in NoPacks && NoPacks[t] == [] {
      match t
      case Action =>
      case Bestiary =>
      case CampaignFeature =>
      case Equipment =>
      case Feat =>
      case Hazard =>
      case Spell =>
    }
  }

  /** The entries of one tab after one pack is registered. */
  lemma RegisterStep(acc: Settings, pack: GamePack, tabs: seq<TabName>, stored: Settings, t: TabName)
    requires tabs != []
    ensures var last := tabs[|tabs| - 1]; var prior := Register(acc, pack, tabs[..|tabs| - 1], stored);
      Entries(Register(acc, pack, tabs, stored), t) ==
        if t == last then SetEntry(Entries(prior, t), pack.collection, PackInfo(LoadFlag(stored, t, pack.collection), pack.packLabel, pack.packageName))
        else Entries(prior, t)
  {
  }

  function InfoFor(stored: Settings, t: TabName, pack: GamePack): PackInfo {
    PackInfo(LoadFlag(stored, t, pack.collection), pack.packLabel, pack.packageName)
  }

  /** Registering a pack adds its collection to exactly the tabs it is listed in, keeps
      what was there, and keeps the keys of each tab distinct. */
  lemma {:induction false} RegisterEntries(acc: Settings, pack: GamePack, tabs: seq<TabName>, stored: Settings, t: TabName)
    ensures Collections(Entries(Register(acc, pack, tabs, stored), t))
      == Collections(Entries(acc, t)) + (if t in tabs then {pack.collection} else {})
    ensures forall e | e in Entries(Register(acc, pack, tabs, stored), t) ::
      e in Entries(acc, t) || (t in tabs && e == (pack.collection, InfoFor(stored, t, pack)))
    ensures Sorting.DistinctBy(Entries(acc, t), (e: PackEntry) => e.0) ==>
      Sorting.DistinctBy(Entries(Register(acc, pack, tabs, stored), t), (e: PackEntry) => e.0)
    decreases |tabs|
  {
    if tabs != [] {
      var init := tabs[..|tabs| - 1];
      var last := tabs[|tabs| - 1];
      RegisterEntries(acc, pack, init, stored, t);
      RegisterStep(acc, pack, tabs, stored, t);
      assert t in tabs <==> t in init || t == last;
      if t == last {
        var prior := Entries(Register(acc, pack, init, stored), t);
        if Sorting.DistinctBy(Entries(acc, t), (e: PackEntry) => e.0) {
          SetEntryDistinct(prior, pack.collection, InfoFor(stored, t, pack));
        }
      }
    }
  }

  lemma {:induction false} CollectKeys(packs: seq<GamePack>, stored: Settings, physical: set<string>)
    ensures forall t: TabName :: t in Collect(packs, stored, physical)
    decreases |packs|
  {
    if packs == [] {
      NoPacksKeys();
    } else {
      CollectKeys(packs[..|packs| - 1], stored, physical);
    }
  }

  /** The collections of the packs listed in a tab, pack by pack. */
  function ListedIn(packs: seq<GamePack>, t: TabName, physical: set<string>): set<string>
    decreases |packs|
  {
    if packs == [] then {}
    else
      var last := packs[|packs| - 1];
      ListedIn(packs[..|packs| - 1], t, physical) + if t in TabsOf(last.entryTypes, physical) then {last.collection} else {}
  }

  /** A collection is listed in a tab exactly when some pack with that collection has an
      entry type the tab shows. */
  lemma {:induction false} ListedInMeaning(packs: seq<GamePack>, t: TabName, physical: set<string>, c: string)
    ensures c in ListedIn(packs, t, physical) <==>
      exists p | p in packs :: p.collection == c && t in TabsOf(p.entryTypes, physical)
    decreases |packs|
  {
    if packs != [] {
      var init := packs[..|packs| - 1];
      ListedInMeaning(init, t, physical, c);
      assert packs == init + [packs[|packs| - 1]];
    }
  }

  /** After the walk, a tab lists exactly the collections of the packs with an entry type
      that maps to it. */
  lemma {:induction false} CollectCollections(packs: seq<GamePack>, stored: Settings, physical: set<string>, t: TabName)
    ensures Collections(Entries(Collect(packs, stored, physical), t)) == ListedIn(packs, t, physical)
    decreases |packs|
  {
    if packs == [] {
      NoPacksKeys();
      assert Entries(NoPacks, t) == [];
    } else {
      var init := packs[..|packs| - 1];
      var last := packs[|packs| - 1];
      CollectCollections(init, stored, physical, t);
      RegisterEntries(Collect(init, stored, physical), last, TabsOf(last.entryTypes, physical), stored, t);
    }
  }

  /** Every listed collection carries the load flag of the fallback chain. */
  lemma {:induction false} CollectLoad(packs: seq<GamePack>, stored: Settings, physical: set<string>, t: TabName)
    ensures forall e | e in Entries(Collect(packs, stored, physical), t) :: e.1.load == LoadFlag(stored, t, e.0)
    decreases |packs|
  {
    if packs == [] {
      NoPacksKeys();
      assert Entries(NoPacks, t) == [];
    } else {
      var init := packs[..|packs| - 1];
      var last := packs[|packs| - 1];
      CollectLoad(init, stored, physical, t);
      RegisterEntries(Collect(init, stored, physical), last, TabsOf(last.entryTypes, physical), stored, t);
    }
  }

  /** Every collection is listed once per tab. */
  lemma {:induction false} CollectDistinct(packs: seq<GamePack>, stored: Settings, physical: set<string>, t: TabName)
    ensures Sorting.DistinctBy(Entries(Collect(packs, stored, physical), t), (e: PackEntry) => e.0)
    decreases |packs|
  {
    if packs == [] {
      NoPacksKeys();
      assert Entries(NoPacks, t) == [];
    } else {
      var init := packs[..|packs| - 1];
      var last := packs[|packs| - 1];
      CollectDistinct(init, stored, physical, t);
      RegisterEntries(Collect(init, stored, physical), last, TabsOf(last.entryTypes, physical), stored, t);
    }
  }

  /** The settings list, per tab, exactly the collections that have an entry the tab
      shows, each once, sorted by pack name, with the load flag of the fallback chain. */
  lemma CompendiumListMeaning(stored: Settings, packs: seq<GamePack>, physical: set<string>, t: TabName)
    ensures t in CompendiumList(stored, packs, physical)
    ensures var r := CompendiumList(stored, packs, physical)[t];
      && (forall c :: c in Collections(r) <==>
            exists p | p in packs :: p.collection == c && t in TabsOf(p.entryTypes, physical))
      && (forall e | e in r :: e.1.load == LoadFlag(stored, t, e.0))
      && Sorting.DistinctBy(r, (e: PackEntry) => e.0)
      && (forall i, j | 0 <= i < j < |r| :: !LexLess(r[j].1.name, r[i].1.name))
  {
    CollectKeys(packs, stored, physical);
    CollectCollections(packs, stored, physical, t);
    forall c ensures c in ListedIn(packs, t, physical) <==>
      exists p | p in packs :: p.collection == c && t in TabsOf(p.entryTypes, physical)
    {
      ListedInMeaning(packs, t, physical, c);
    }
    CollectLoad(packs, stored, physical, t);
    CollectDistinct(packs, stored, physical, t);
    var c := Collect(packs, stored, physical);
    var s := c[t];
    var r := Sorting.InsertionSort(s, ByName());
    Sorting.SortPermutes(s, ByName());
    Sorting.SortDistinct(s, ByName(), (e: PackEntry) => e.0);
    forall e ensures e in r <==> e in s {
      assert e in r <==> e in multiset(r);
    }
    assert Collections(r) == Collections(s);
    NameOrderTotal();
    Sorting.SortSorted(s, ByName(), (e: PackEntry) => true);
    forall i, j | 0 <= i < j < |r| ensures !LexLess(r[j].1.name, r[i].1.name) {
      assert ByName()(r[i], r[j]) <= 0;
    }
  }

  /** The name comparator never answers 0, but "not after" is still a total preorder. */
  lemma NameOrderTotal()
    ensures Sorting.TotalPreorderOn((e: PackEntry) => true, ByName())
  {
    var cmp := ByName();
    forall a, b ensures cmp(a, b) <= 0 || cmp(b, a) <= 0 {
      LexLessAsymmetric(a.1.name, b.1.name);
    }
    forall a, b, c | cmp(a, b) <= 0 && cmp(b, c) <= 0 ensures cmp(a, c) <= 0 {
      if LexLess(c.1.name, a.1.name) {
        LexLessTotal(b.1.name, a.1.name);
        if LexLess(b.1.name, a.1.name) {
        } else if b.1.name == a.1.name {
        } else {
          LexLessTransitive(c.1.name, a.1.name, b.1.name);
        }
      }
    }
  }

  // ---- loaded packs ---------------------------------------------------------------------

  function LoadedOf(entries: seq<PackEntry>): (r: seq<string>)
    ensures forall c :: c in r <==> exists e | e in entries :: e.0 == c && e.1.load
    decreases |entries|
  {
    if entries == [] then []
    else
      assert forall e | e in entries :: e == entries[0] || e in entries[1..];
      (if entries[0].1.load then [entries[0].0] else []) + LoadedOf(entries[1..])
  }

  /** `loadedPacks`: the collections of a tab whose load flag is set, in settings order. */
  function LoadedPacks(s: Settings, t: TabName): (r: seq<string>)
    ensures forall c :: c in r <==> exists e | e in Entries(s, t) :: e.0 == c && e.1.load
  {
    LoadedOf(Entries(s, t))
  }

  function AllLoaded(s: Settings, tabs: seq<TabName>): (r: seq<string>)
    ensures forall c :: c in r <==> exists t | t in tabs :: c in LoadedPacks(s, t)
    decreases |tabs|
  {
    if tabs == [] then []
    else
      var init := tabs[..|tabs| - 1];
      assert tabs == init + [tabs[|tabs| - 1]];
      AllLoaded(s, init) + LoadedPacks(s, tabs[|tabs| - 1])
  }

  /** `R.unique`: the first occurrence of each element. */
  function Unique(xs: seq<string>): (r: seq<string>)
    ensures NoDuplicates(r)
    ensures forall x :: x in r <==> x in xs
    decreases |xs|
  {
    if xs == [] then []
    else
      var init := xs[..|xs| - 1];
      assert forall x | x in xs :: x in init || x == xs[|xs| - 1];
      AddUnique(Unique(init), xs[|xs| - 1])
  }

  /** `loadedPacksAll`: every collection some tab loads, once, in the UTF-16 code-unit
      order of the default `sort()`. */
  function LoadedPacksAll(s: Settings): seq<string> {
    Sorting.InsertionSort(Unique(AllLoaded(s, DataTabsList)), CompareCodeUnits)
  }

  lemma LoadedPacksAllMeaning(s: Settings)
    ensures var r := LoadedPacksAll(s);
      && (forall c :: c in r <==> exists t: TabName :: c in LoadedPacks(s, t))
      && forall i, j | 0 <= i < j < |r| :: LexLess(r[i], r[j])
  {
    var u := Unique(AllLoaded(s, DataTabsList));
    var r := LoadedPacksAll(s);
    DataTabsListComplete();
    Sorting.SortPermutes(u, CompareCodeUnits);
    forall c ensures c in r <==> c in u {
      assert c in r <==> c in multiset(r);
    }
    forall c ensures c in u <==> exists t: TabName :: c in LoadedPacks(s, t) {
      if exists t: TabName :: c in LoadedPacks(s, t) {
        var t: TabName :| c in LoadedPacks(s, t);
        assert t in DataTabsList;
      }
    }
    assert Sorting.DistinctBy(u, (x: string) => x);
    Sorting.SortDistinct(u, CompareCodeUnits, (x: string) => x);
    CodeUnitsTotal();
    Sorting.SortSorted(u, CompareCodeUnits, (x: string) => true);
    forall i, j | 0 <= i < j < |r| ensures LexLess(r[i], r[j]) {
      assert CompareCodeUnits(r[i], r[j]) <= 0;
    }
  }

  lemma CodeUnitsTotal()
    ensures Sorting.TotalPreorderOn((x: string) => true, CompareCodeUnits)
  {
    forall a, b ensures CompareCodeUnits(a, b) <= 0 || CompareCodeUnits(b, a) <= 0 {
      LexLessTotal(a, b);
    }
    forall a, b, c | CompareCodeUnits(a, b) <= 0 && CompareCodeUnits(b, c) <= 0 ensures CompareCodeUnits(a, c) <= 0 {
      if a != b && b != c {
        LexLessTransitive(a, b, c);
      }
    }
  }

  // ---- visibility ---------------------------------------------------------------------

  /** `#setVisibleTabs`: listed (every tab without a list), except the campaign tab when
      the campaign type is "none" and GM-only tabs for a player. */
  predicate Visible(t: TabName, list: Option<seq<TabName>>, isGM: bool, showCampaign: bool) {
    && (list.None? || t in list.value)
    && !(t == CampaignFeature && !showCampaign)
    && !(TabBase.IsGMOnly(t) && !isGM)
  }

  /** The tab names of `showTabs`, or `None` when one is unknown. */
  function ParseAll(names: seq<string>): (r: Option<seq<TabName>>)
    ensures r.None? <==> exists i | 0 <= i < |names| :: ParseTabName(names[i]).None?
    ensures r.Some? ==> |r.value| == |names| && forall i | 0 <= i < |names| :: r.value[i].Key() == names[i]
    decreases |names|
  {
    if names == [] then Some([])
    else
      var head := ParseTabName(names[0]);
      var rest := ParseAll(names[1..]);
      assert forall i | 1 <= i < |names| :: names[1..][i - 1] == names[i];
      if head.None? || rest.None? then None else Some([head.value] + rest.value)
  }

  /** The list `openTab` passes to `#setVisibleTabs`. */
  function VisibleList(t: TabName, hideNavigation: bool, shown: Option<seq<TabName>>): Option<seq<TabName>> {
    if hideNavigation then Some([])
    else if shown.Some? then Some(if t in shown.value then shown.value else shown.value + [t])
    else None
  }

  function Index(t: TabName): (i: nat)
    ensures i < 7 && DataTabsList[i] == t
  {
    match t
    case Action => 0
    case Bestiary => 1
    case CampaignFeature => 2
    case Equipment => 3
    case Feat => 4
    case Hazard => 5
    case Spell => 6
  }

  function ClearSearch(f: BrowserFilter): (r: BrowserFilter)
    ensures r.Tab() == f.Tab() && r.search.text == ""
  {
    f.(search := SearchData(""))
  }

  /** The inner loop of `initCompendiumList`: one pack, tab by tab. */
  method RegisterPack(acc0: Settings, pack: GamePack, tabNames: seq<TabName>, stored: Settings) returns (acc: Settings)
    ensures acc == Register(acc0, pack, tabNames, stored)
  {
    acc := acc0;
    for j := 0 to |tabNames|
      invariant acc == Register(acc0, pack, tabNames[..j], stored)
    {
      var t := tabNames[j];
      assert tabNames[..j + 1][..j] == tabNames[..j];
      acc := acc[t := SetEntry(Entries(acc, t), pack.collection, InfoFor(stored, t, pack))];
    }
    assert tabNames[..|tabNames|] == tabNames;
  }

  /** The walk of `initCompendiumList`, pack by pack and tab by tab. */
  method CollectPacks(packs: seq<GamePack>, stored: Settings, physical: set<string>) returns (acc: Settings)
    ensures acc == Collect(packs, stored, physical)
  {
    acc := NoPacks;
    for i := 0 to |packs|
      invariant acc == Collect(packs[..i], stored, physical)
    {
      var pack := packs[i];
      acc := RegisterPack(acc, pack, TabsOf(pack.entryTypes, physical), stored);
      assert packs[..i + 1][..i] == packs[..i];
    }
    assert packs[..|packs|] == packs;
  }

  /** The sort of each tab's settings by pack name. */
  method SortSettings(c: Settings) returns (sorted: Settings)
    ensures sorted == map t | t in c :: Sorting.InsertionSort(c[t], ByName())
  {
    sorted := map[];
    for k := 0 to 7
      invariant forall u | u in sorted :: u in c && sorted[u] == Sorting.InsertionSort(c[u], ByName())
      invariant forall m | 0 <= m < k && DataTabsList[m] in c :: DataTabsList[m] in sorted
      invariant forall u | u in sorted :: u in DataTabsList[..k]
    {
      var t := DataTabsList[k];
      if t in c {
        var entries := c[t];
        var a := new PackEntry[|entries|](i requires 0 <= i < |entries| => entries[i]);
        assert a[..] == entries;
        Sorting.SortInPlace(a, ByName());
        sorted := sorted[t := a[..]];
      }
    }
    forall u: TabName | u in c ensures u in sorted {
      assert DataTabsList[Index(u)] == u;
    }
  }

  lemma TabsDistinct()
    ensures forall i, j | 0 <= i < j < 7 :: DataTabsList[i] != DataTabsList[j]
  {
    DataTabsListComplete();
  }

  method NewTab(t: TabName, env: Env) returns (tab: TabBase.CompendiumTab)
    ensures fresh(tab) && tab.tabName == t && tab.Valid() && !tab.isInitialized
  {
    tab := new TabBase.CompendiumTab(t);
    tab.SetPreparedFilter(env);
  }

  /** A fresh tab object for each tab, in tab-list order. */
  method NewTabs(env: Env) returns (ts: seq<TabBase.CompendiumTab>)
    ensures |ts| == 7
    ensures forall i | 0 <= i < 7 :: fresh(ts[i]) && ts[i].tabName == DataTabsList[i] && ts[i].Valid() && !ts[i].isInitialized
  {
    var action := NewTab(Action, env);
    var bestiary := NewTab(Bestiary, env);
    var campaignFeature := NewTab(CampaignFeature, env);
    var equipment := NewTab(Equipment, env);
    var feat := NewTab(Feat, env);
    var hazard := NewTab(Hazard, env);
    var spell := NewTab(Spell, env);
    ts := [action, bestiary, campaignFeature, equipment, feat, hazard, spell];
    assert DataTabsList == [Action, Bestiary, CampaignFeature, Equipment, Feat, Hazard, Spell];
  }

  /** The errors `openTab` throws, in the order it checks for them. */
  datatype OpenError = UnknownTab | GMOnlyTab | FilterForUninitialised | InitFailed | UnknownShownTab {
    function Message(): string {
      match this
      case UnknownTab => "Unknown tab"
      case GMOnlyTab => "Tried to open GM-only browser tab!"
      case FilterForUninitialised => "Tried to pass filter data to an uninitialized tab!"
      case InitFailed => "The tab could not be initialised"
      case UnknownShownTab => "Unknown tab name in showTabs"
    }
  }

  /** `init` as `openTab` runs it on a tab of kind `t` in state `before`: a filter
      passed for a tab that is not initialised throws first, with nothing changed;
      otherwise the tab ends as InitSpec says, and a throw in `init` is reported. */
  ghost predicate OpensAs(t: TabName, before: TabBase.TabState, after: TabBase.TabState, hasFilter: bool,
                          failure: Option<OpenError>, items: seq<Pack<ItemRecord>>, actors: seq<Pack<ActorRecord>>, env: Env)
    requires before.filterData.Some? ==> before.filterData.value.Tab() == t
  {
    var guarded := hasFilter && !before.isInitialized;
    var init := TabBase.InitSpec(t, before, false, items, actors, env);
    && failure == (if guarded then Some(FilterForUninitialised) else if init.1 then Some(InitFailed) else None)
    && after == (if guarded then before else init.0)
  }

  /** What `openTab` returns once the tab's own checks and `init` are done: their error,
      else an unknown name in `showTabs`, else the tab. */
  function Outcome(t: TabName, failure: Option<OpenError>, hideNavigation: bool, showTabs: Option<seq<string>>)
    : (r: Result<TabName, OpenError>)
    ensures r.Ok? <==> failure.None? && (hideNavigation || showTabs.None? || ParseAll(showTabs.value).Some?)
    ensures r.Ok? ==> r.value == t
  {
    if failure.Some? then Err(failure.value)
    else if !hideNavigation && showTabs.Some? && ParseAll(showTabs.value).None? then Err(UnknownShownTab)
    else Ok(t)
  }

  class CompendiumBrowser {
    var settings: Settings
    /** `tabsArray`: the tab objects in tab-list order. */
    var tabs: seq<TabBase.CompendiumTab>
    var activeTab: Option<TabName>
    /** The context's active tab name; "" shows the landing page. */
    var activeTabName: string
    var activeFilter: Option<BrowserFilter>
    /** The context's result limit. */
    var resultLimit: int
    var rendered: bool

    ghost predicate Valid()
      reads this, tabs
    {
      && |tabs| == 7
      && (forall i | 0 <= i < 7 :: tabs[i].tabName == DataTabsList[i] && tabs[i].Valid())
    }

    /** The tab objects, one per tab, and the settings built from the game's packs. */
    constructor(stored: Settings, packs: seq<GamePack>, physical: set<string>, env: Env)
      ensures Valid() && forall i | 0 <= i < 7 :: fresh(tabs[i]) && !tabs[i].isInitialized
      ensures settings == CompendiumList(stored, packs, physical)
      ensures activeTab == None && activeTabName == "" && activeFilter == None && !rendered
    {
      var ts := NewTabs(env);
      var collected := CollectPacks(packs, stored, physical);
      var sorted := SortSettings(collected);
      tabs := ts;
      settings := sorted;
      activeTab := None;
      activeTabName := "";
      activeFilter := None;
      resultLimit := TabBase.ResultLimit;
      rendered := false;
    }

    /** `initCompendiumList`, replacing the settings. */
    method InitCompendiumList(packs: seq<GamePack>, physical: set<string>)
      modifies this`settings
      ensures settings == CompendiumList(old(settings), packs, physical)
    {
      var collected := CollectPacks(packs, settings, physical);
      settings := SortSettings(collected);
    }

    function TabOf(t: TabName): TabBase.CompendiumTab
      reads this
      requires |tabs| == 7
    {
      tabs[Index(t)]
    }

    /** `#setVisibleTabs`. */
    method SetVisibleTabs(list: Option<seq<TabName>>, isGM: bool, showCampaign: bool)
      requires Valid()
      modifies set i | 0 <= i < |tabs| :: tabs[i]`visible
      ensures Valid()
      ensures forall i | 0 <= i < 7 :: tabs[i].visible == Visible(DataTabsList[i], list, isGM, showCampaign)
    {
      TabsDistinct();
      for i := 0 to 7
        invariant Valid()
        invariant forall k | 0 <= k < i :: tabs[k].visible == Visible(DataTabsList[k], list, isGM, showCampaign)
      {
        tabs[i].visible := Visible(tabs[i].tabName, list, isGM, showCampaign);
      }
    }

    /** The list of tab names `openTab` shows, or `None` for every tab. */
    static function ShownList(t: TabName, hideNavigation: bool, showTabs: Option<seq<string>>): Option<seq<TabName>> {
      VisibleList(t, hideNavigation, if showTabs.Some? then ParseAll(showTabs.value) else None)
    }

    /** The guard on a passed filter and the tab's `init`, as `openTab` runs them; the
        result is the error thrown, if any. */
    method InitForOpen(t: TabName, hasFilter: bool, items: seq<Pack<ItemRecord>>, actors: seq<Pack<ActorRecord>>, env: Env)
      returns (failure: Option<OpenError>)
      requires Valid()
      modifies tabs[Index(t)]
      ensures Valid()
      ensures OpensAs(t, old(TabOf(t).State()), TabOf(t).State(), hasFilter, failure, items, actors, env)
      ensures TabOf(t).visible == old(TabOf(t).visible)
    {
      TabsDistinct();
      var tab := tabs[Index(t)];
      if hasFilter && !tab.isInitialized {
        return Some(FilterForUninitialised);
      }
      var thrown := tab.Init(false, items, actors, env);
      return if thrown then Some(InitFailed) else None;
    }

    /** The visibility step of `openTab`; an unknown name in `showTabs` throws. */
    method ShowTabs(t: TabName, hideNavigation: bool, showTabs: Option<seq<string>>, isGM: bool, showCampaign: bool)
      returns (ok: bool)
      requires Valid()
      modifies set i | 0 <= i < |tabs| :: tabs[i]`visible
      ensures Valid()
      ensures ok <==> !(!hideNavigation && showTabs.Some? && ParseAll(showTabs.value).None?)
      ensures ok ==> forall i | 0 <= i < 7 :: tabs[i].visible == Visible(DataTabsList[i], ShownList(t, hideNavigation, showTabs), isGM, showCampaign)
      ensures ok && !hideNavigation && (t != CampaignFeature || showCampaign) && (!TabBase.IsGMOnly(t) || isGM) ==> TabOf(t).visible
      ensures !ok ==> forall i | 0 <= i < 7 :: tabs[i].visible == old(tabs[i].visible)
    {
      var shown: Option<seq<TabName>> := None;
      if !hideNavigation && showTabs.Some? {
        shown := ParseAll(showTabs.value);
        if shown.None? {
          return false;
        }
      }
      SetVisibleTabs(VisibleList(t, hideNavigation, shown), isGM, showCampaign);
      assert tabs[Index(t)].visible == Visible(t, ShownList(t, hideNavigation, showTabs), isGM, showCampaign);
      return true;
    }

    /** `openTab`. An unknown name throws before anything changes; any other name is
        opened as OpenKnown says. */
    method OpenTab(name: string, filter: Option<BrowserFilter>, hideNavigation: bool, showTabs: Option<seq<string>>,
                   isGM: bool, showCampaign: bool,
                   items: seq<Pack<ItemRecord>>, actors: seq<Pack<ActorRecord>>, env: Env)
      returns (r: Result<TabName, OpenError>, ghost failure: Option<OpenError>)
      requires Valid()
      modifies this`activeTab, this`rendered, this`activeFilter, this`activeTabName, this`resultLimit,
               (if ParseTabName(name).Some? then {TabOf(ParseTabName(name).value)} else {}),
               set i | 0 <= i < |tabs| :: tabs[i]`visible
      ensures Valid() && tabs == old(tabs) && settings == old(settings)
      ensures ParseTabName(name).None? ==>
        r == Err(UnknownTab) && failure == Some(UnknownTab) && activeTab == old(activeTab) && rendered == old(rendered)
      ensures ParseTabName(name).Some? ==>
        var t := ParseTabName(name).value;
        && activeTab == Some(t)
        && (TabBase.IsGMOnly(t) && !isGM ==>
              failure == Some(GMOnlyTab) && TabOf(t).State() == old(TabOf(t).State()) && rendered == old(rendered))
        && (!(TabBase.IsGMOnly(t) && !isGM) ==>
              && OpensAs(t, old(TabOf(t).State()), TabOf(t).State(), filter.Some?, failure, items, actors, env)
              && (rendered <==> old(rendered) || failure.None?))
        && r == Outcome(t, failure, hideNavigation, showTabs)
      ensures r.Err? ==>
        && activeTabName == old(activeTabName) && activeFilter == old(activeFilter) && resultLimit == old(resultLimit)
        && forall i | 0 <= i < 7 :: tabs[i].visible ==
             (if old(rendered) || failure.Some? then old(tabs[i].visible) else Visible(DataTabsList[i], None, isGM, showCampaign))
      ensures r.Ok? ==>
        var t := r.value;
        && ParseTabName(name) == Some(t)
        && TabOf(t).isInitialized
        && (forall i | 0 <= i < 7 :: tabs[i].visible == Visible(DataTabsList[i], ShownList(t, hideNavigation, showTabs), isGM, showCampaign))
        && (!hideNavigation && (t != CampaignFeature || showCampaign) ==> TabOf(t).visible)
        && activeFilter == (if filter.Some? then filter else TabOf(t).filterData)
        && activeTabName == t.Key()
        && resultLimit == (if old(activeTabName) == t.Key() then TabBase.ResultLimit else old(resultLimit))
    {
      var parsed := ParseTabName(name);
      if parsed.None? {
        return Err(UnknownTab), Some(UnknownTab);
      }
      r, failure := OpenKnown(parsed.value, filter, hideNavigation, showTabs, isGM, showCampaign, items, actors, env);
    }

    /** `openTab` for the tab `t`, once the name is known: the tab becomes the active tab,
        and a player opening a GM-only tab throws; otherwise the tab is opened as
        InitAndRender says. */
    method OpenKnown(t: TabName, filter: Option<BrowserFilter>, hideNavigation: bool, showTabs: Option<seq<string>>,
                     isGM: bool, showCampaign: bool,
                     items: seq<Pack<ItemRecord>>, actors: seq<Pack<ActorRecord>>, env: Env)
      returns (r: Result<TabName, OpenError>, ghost failure: Option<OpenError>)
      requires Valid()
      modifies this`activeTab, this`rendered, this`activeFilter, this`activeTabName, this`resultLimit, tabs[Index(t)],
               set i | 0 <= i < |tabs| :: tabs[i]`visible
      ensures Valid() && tabs == old(tabs) && settings == old(settings) && activeTab == Some(t)
      ensures TabBase.IsGMOnly(t) && !isGM ==>
        failure == Some(GMOnlyTab) && TabOf(t).State() == old(TabOf(t).State()) && rendered == old(rendered)
      ensures !(TabBase.IsGMOnly(t) && !isGM) ==>
        && OpensAs(t, old(TabOf(t).State()), TabOf(t).State(), filter.Some?, failure, items, actors, env)
        && (rendered <==> old(rendered) || failure.None?)
      ensures r == Outcome(t, failure, hideNavigation, showTabs)
      ensures r.Err? ==>
        && activeTabName == old(activeTabName) && activeFilter == old(activeFilter) && resultLimit == old(resultLimit)
        && forall i | 0 <= i < 7 :: tabs[i].visible ==
             (if old(rendered) || failure.Some? then old(tabs[i].visible) else Visible(DataTabsList[i], None, isGM, showCampaign))
      ensures r.Ok? ==>
        && TabOf(t).isInitialized
        && (forall i | 0 <= i < 7 :: tabs[i].visible == Visible(DataTabsList[i], ShownList(t, hideNavigation, showTabs), isGM, showCampaign))
        && (!hideNavigation && (t != CampaignFeature || showCampaign) ==> TabOf(t).visible)
        && activeFilter == (if filter.Some? then filter else TabOf(t).filterData)
        && activeTabName == t.Key()
        && resultLimit == (if old(activeTabName) == t.Key() then TabBase.ResultLimit else old(resultLimit))
    {
      activeTab := Some(t);
      if TabBase.IsGMOnly(t) && !isGM {
        return Err(GMOnlyTab), Some(GMOnlyTab);
      }
      r, failure := InitAndRender(t, filter, hideNavigation, showTabs, isGM, showCampaign, items, actors, env);
    }

    /** The rest of `openTab` once the tab may be opened: a filter for a tab that is not
        initialised, a failed `init` and an unknown name in `showTabs` each throw, in this
        order. Only the tab opened is initialised. On success the visibility is set, the
        filter shown is the one passed or the tab's own, and reopening the tab already
        shown resets the result limit. `items` and `actors` stand for what the pack loader
        yields. */
    method InitAndRender(t: TabName, filter: Option<BrowserFilter>, hideNavigation: bool, showTabs: Option<seq<string>>,
                         isGM: bool, showCampaign: bool,
                         items: seq<Pack<ItemRecord>>, actors: seq<Pack<ActorRecord>>, env: Env)
      returns (r: Result<TabName, OpenError>, ghost failure: Option<OpenError>)
      requires Valid()
      modifies this`rendered, this`activeFilter, this`activeTabName, this`resultLimit, tabs[Index(t)], set i | 0 <= i < |tabs| :: tabs[i]`visible
      ensures Valid() && tabs == old(tabs) && settings == old(settings) && activeTab == old(activeTab)
      ensures OpensAs(t, old(TabOf(t).State()), TabOf(t).State(), filter.Some?, failure, items, actors, env)
      ensures r == Outcome(t, failure, hideNavigation, showTabs)
      ensures rendered <==> old(rendered) || failure.None?
      ensures r.Err? ==>
        && activeTabName == old(activeTabName) && activeFilter == old(activeFilter) && resultLimit == old(resultLimit)
        && forall i | 0 <= i < 7 :: tabs[i].visible ==
             (if old(rendered) || failure.Some? then old(tabs[i].visible) else Visible(DataTabsList[i], None, isGM, showCampaign))
      ensures r.Ok? ==>
        && TabOf(t).isInitialized
        && (forall i | 0 <= i < 7 :: tabs[i].visible == Visible(DataTabsList[i], ShownList(t, hideNavigation, showTabs), isGM, showCampaign))
        && (!hideNavigation && (t != CampaignFeature || showCampaign) && (!TabBase.IsGMOnly(t) || isGM) ==> TabOf(t).visible)
        && activeFilter == (if filter.Some? then filter else TabOf(t).filterData)
        && activeTabName == t.Key()
        && resultLimit == (if old(activeTabName) == t.Key() then TabBase.ResultLimit else old(resultLimit))
    {
      TabObjectsDistinct();
      var thrown := InitForOpen(t, filter.Some?, items, actors, env);
      failure := thrown;
      if thrown.Some? {
        return Err(thrown.value), failure;
      }
      r := RenderOpened(t, filter, hideNavigation, showTabs, isGM, showCampaign);
    }

    /** The end of `openTab`, once the tab is initialised: a browser not yet rendered is
        rendered, and its first render shows every tab the rules allow (`_onFirstRender`);
        then the visibility is set and the filter shown. An unknown name in `showTabs`
        throws after the first render. */
    method RenderOpened(t: TabName, filter: Option<BrowserFilter>, hideNavigation: bool, showTabs: Option<seq<string>>,
                        isGM: bool, showCampaign: bool) returns (r: Result<TabName, OpenError>)
      requires Valid()
      modifies this`rendered, this`activeFilter, this`activeTabName, this`resultLimit, set i | 0 <= i < |tabs| :: tabs[i]`visible
      ensures Valid() && tabs == old(tabs) && activeTab == old(activeTab) && settings == old(settings) && rendered
      ensures r == Outcome(t, None, hideNavigation, showTabs)
      ensures r.Err? ==>
        && activeTabName == old(activeTabName) && activeFilter == old(activeFilter) && resultLimit == old(resultLimit)
        && forall i | 0 <= i < 7 :: tabs[i].visible ==
             (if old(rendered) then old(tabs[i].visible) else Visible(DataTabsList[i], None, isGM, showCampaign))
      ensures r.Ok? ==>
        && (forall i | 0 <= i < 7 :: tabs[i].visible == Visible(DataTabsList[i], ShownList(t, hideNavigation, showTabs), isGM, showCampaign))
        && (!hideNavigation && (t != CampaignFeature || showCampaign) && (!TabBase.IsGMOnly(t) || isGM) ==> TabOf(t).visible)
        && activeFilter == (if filter.Some? then filter else TabOf(t).filterData)
        && activeTabName == t.Key()
        && resultLimit == (if old(activeTabName) == t.Key() then TabBase.ResultLimit else old(resultLimit))
    {
      FirstRender(isGM, showCampaign);
      var ok := ShowTabs(t, hideNavigation, showTabs, isGM, showCampaign);
      if !ok {
        return Err(UnknownShownTab);
      }
      ShowFilter(t, filter);
      return Ok(t);
    }

    /** `render({force: true})` on a browser not yet rendered: `_onFirstRender` shows every
        tab the rules allow. A rendered browser is left as it is. */
    method FirstRender(isGM: bool, showCampaign: bool)
      requires Valid()
      modifies this`rendered, set i | 0 <= i < |tabs| :: tabs[i]`visible
      ensures Valid() && rendered
      ensures forall i | 0 <= i < 7 ::
        tabs[i].visible == (if old(rendered) then old(tabs[i].visible) else Visible(DataTabsList[i], None, isGM, showCampaign))
    {
      if !rendered {
        rendered := true;
        SetVisibleTabs(None, isGM, showCampaign);
      }
    }

    /** The filter shown is the one passed or the tab's own; reopening the tab already
        shown resets the result limit, and opening another one makes it the shown tab. */
    method ShowFilter(t: TabName, filter: Option<BrowserFilter>)
      requires Valid()
      modifies this`activeFilter, this`activeTabName, this`resultLimit
      ensures activeFilter == (if filter.Some? then filter else TabOf(t).filterData)
      ensures activeTabName == t.Key()
      ensures resultLimit == (if old(activeTabName) == t.Key() then TabBase.ResultLimit else old(resultLimit))
    {
      activeFilter := if filter.Some? then filter else tabs[Index(t)].filterData;
      if activeTabName == t.Key() {
        resultLimit := TabBase.ResultLimit;
      } else {
        activeTabName := t.Key();
      }
    }

    /** Closing the browser: it is no longer rendered, so the next `openTab` renders it
        afresh; then `_onClose` clears every tab's search text, and a tab without filter
        data throws at that tab. */
    method OnClose() returns (thrown: bool)
      requires Valid()
      modifies this`rendered, set i | 0 <= i < |tabs| :: tabs[i]`filterData
      ensures Valid() && !rendered
      ensures !thrown <==> forall i | 0 <= i < 7 :: old(tabs[i].filterData).Some?
      ensures !thrown ==> forall i | 0 <= i < 7 :: tabs[i].filterData == Some(ClearSearch(old(tabs[i].filterData).value))
    {
      rendered := false;
      TabsDistinct();
      for i := 0 to 7
        invariant Valid() && !rendered
        invariant forall k | 0 <= k < i :: old(tabs[k].filterData).Some? && tabs[k].filterData == Some(ClearSearch(old(tabs[k].filterData).value))
        invariant forall k | i <= k < 7 :: tabs[k].filterData == old(tabs[k].filterData)
      {
        var f := tabs[i].filterData;
        if f.None? {
          return true;
        }
        tabs[i].filterData := Some(ClearSearch(f.value));
      }
      return false;
    }

    /** A tab of kind `t` initialised again, forced, from state `before`, ending in
        state `after` without throwing, as InitSpec says. */
    ghost predicate Reloaded(t: TabName, after: TabBase.TabState, before: TabBase.TabState,
                             itemsOf: TabName -> seq<Pack<ItemRecord>>, actorsOf: TabName -> seq<Pack<ActorRecord>>, env: Env)
    {
      && (before.filterData.Some? ==> before.filterData.value.Tab() == t)
      && (after, false) == TabBase.InitSpec(t, before, true, itemsOf(t), actorsOf(t), env)
    }

    /** One step of `resetInitializedTabs`: an initialised tab is initialised again,
        forced; any other tab is left alone. */
    method ReloadTab(k: nat, itemsOf: TabName -> seq<Pack<ItemRecord>>, actorsOf: TabName -> seq<Pack<ActorRecord>>, env: Env)
      returns (failed: bool)
      requires Valid() && k < 7
      modifies tabs[k]
      ensures Valid()
      ensures !old(tabs[k].isInitialized) ==> !failed && unchanged(tabs[k])
      ensures old(tabs[k].isInitialized) ==>
        (tabs[k].State(), failed) == TabBase.InitSpec(tabs[k].tabName, old(tabs[k].State()), true, itemsOf(tabs[k].tabName),
                                                      actorsOf(tabs[k].tabName), env)
      ensures tabs[k].visible == old(tabs[k].visible) && tabs[k].resultLimit == old(tabs[k].resultLimit)
    {
      TabObjectsDistinct();
      var tab := tabs[k];
      failed := false;
      if tab.isInitialized {
        failed := tab.Init(true, itemsOf(tab.tabName), actorsOf(tab.tabName), env);
      }
    }

    /** The seven tab objects are seven different objects. */
    lemma TabObjectsDistinct()
      requires Valid()
      ensures forall i, j | 0 <= i < j < 7 :: tabs[i] != tabs[j]
    {
      TabsDistinct();
    }

    /** `resetInitializedTabs`: every initialised tab is initialised again, forced, and
        the landing page is shown; a failed load stops the walk. */
    method ResetInitializedTabs(itemsOf: TabName -> seq<Pack<ItemRecord>>, actorsOf: TabName -> seq<Pack<ActorRecord>>, env: Env)
      returns (thrown: bool)
      requires Valid()
      modifies tabs, this`activeTabName
      ensures Valid()
      ensures !thrown ==> activeTabName == ""
      ensures !thrown ==> forall i | 0 <= i < 7 :: old(tabs[i].isInitialized) ==>
        Reloaded(DataTabsList[i], tabs[i].State(), old(tabs[i].State()), itemsOf, actorsOf, env)
      ensures forall i | 0 <= i < 7 :: !old(tabs[i].isInitialized) ==> unchanged(tabs[i])
      ensures thrown ==> activeTabName == old(activeTabName) && exists i | 0 <= i < 7 ::
        && old(tabs[i].isInitialized)
        && TabBase.Load(DataTabsList[i], itemsOf(DataTabsList[i]), actorsOf(DataTabsList[i]), env).None?
        && (forall k | 0 <= k < i :: old(tabs[k].isInitialized) ==>
              Reloaded(DataTabsList[k], tabs[k].State(), old(tabs[k].State()), itemsOf, actorsOf, env))
        && tabs[i].State() == old(tabs[i].State())
        && (forall k | i < k < 7 :: unchanged(tabs[k]))
      ensures forall i | 0 <= i < 7 :: tabs[i].visible == old(tabs[i].visible)
    {
      TabObjectsDistinct();
      for i := 0 to 7
        invariant Valid()
        invariant forall k | 0 <= k < i :: old(tabs[k].isInitialized) ==>
          Reloaded(DataTabsList[k], tabs[k].State(), old(tabs[k].State()), itemsOf, actorsOf, env)
        invariant forall k | 0 <= k < i :: !old(tabs[k].isInitialized) ==> unchanged(tabs[k])
        invariant forall k | 0 <= k < i :: tabs[k].visible == old(tabs[k].visible)
        invariant forall k | i <= k < 7 :: unchanged(tabs[k])
        invariant activeTabName == old(activeTabName)
      {
        label before:
        var failed := ReloadTab(i, itemsOf, actorsOf, env);
        assert forall k | 0 <= k < 7 && k != i :: unchanged@before(tabs[k]);
        if failed {
          assert tabs[i].tabName == DataTabsList[i];
          assert old(tabs[i].isInitialized) && TabBase.Load(DataTabsList[i], itemsOf(DataTabsList[i]), actorsOf(DataTabsList[i]), env).None?;
          return true;
        }
      }
      activeTabName := "";
      return false;
    }
  }
}
