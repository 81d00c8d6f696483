/** The filter schema of the compendium browser: one record shape per filter widget and
    the closed union of the seven per-tab filter records. */
module FilterData {
  import opened Wrappers

  /** The content tabs, in the browser's tab-list order. */
  datatype TabName = Action | Bestiary | CampaignFeature | Equipment | Feat | Hazard | Spell {
    /** The name the browser and the settings use for the tab. */
    function Key(): string {
      match this
      case Action => "action"
      case Bestiary => "bestiary"
      case CampaignFeature => "campaignFeature"
      case Equipment => "equipment"
      case Feat => "feat"
      case Hazard => "hazard"
      case Spell => "spell"
    }
  }

  /** The tab list: every content tab once, in this order. */
  const DataTabsList: seq<TabName> := [Action, Bestiary, CampaignFeature, Equipment, Feat, Hazard, Spell]

  /** The tab with a given name, if the name is one of the list. */
  function ParseTabName(name: string): (r: Option<TabName>)
    ensures r.Some? ==> r.value.Key() == name
    ensures r.None? ==> forall t: TabName :: t.Key() != name
  {
    if name == "action" then Some(Action)
    else if name == "bestiary" then Some(Bestiary)
    else if name == "campaignFeature" then Some(CampaignFeature)
    else if name == "equipment" then Some(Equipment)
    else if name == "feat" then Some(Feat)
    else if name == "hazard" then Some(Hazard)
    else if name == "spell" then Some(Spell)
    else None
  }

  lemma DataTabsListComplete()
    ensures |DataTabsList| == 7
    ensures forall t: TabName :: t in DataTabsList
    ensures forall i, j :: 0 <= i < j < 7 ==> DataTabsList[i] != DataTabsList[j]
    ensures forall t: TabName :: ParseTabName(t.Key()) == Some(t)
  {
    forall t: TabName ensures t in DataTabsList {
      match t
      case Action => assert DataTabsList[0] == t;
      case Bestiary => assert DataTabsList[1] == t;
      case CampaignFeature => assert DataTabsList[2] == t;
      case Equipment => assert DataTabsList[3] == t;
      case Feat => assert DataTabsList[4] == t;
      case Hazard => assert DataTabsList[5] == t;
      case Spell => assert DataTabsList[6] == t;
    }
  }

  datatype LabeledValue = LabeledValue(title: string, value: string)

  datatype Conjunction = And | Or

  datatype CheckboxData = CheckboxData(
    isExpanded: bool,
    title: string,
    options: seq<LabeledValue>,
    /** Defaults to the object key of the filter. */
    optionPrefix: Option<string>,
    selected: seq<string>)

  datatype ChipSelection = ChipSelection(exclude: Option<bool>, value: string) {
    /** `!!s.exclude`. */
    predicate Excluded() { exclude == Some(true) }
  }

  datatype ChipsData = ChipsData(
    conjunction: Conjunction,
    isExpanded: bool,
    title: string,
    options: seq<LabeledValue>,
    /** Defaults to the object key of the filter. */
    optionPrefix: Option<string>,
    selected: seq<ChipSelection>,
    showConjunction: Option<bool>)

  datatype TraitSelection = TraitSelection(title: string, not: Option<bool>, value: string) {
    /** `!!t.not`. */
    predicate Negated() { not == Some(true) }
  }

  datatype TraitData = TraitData(conjunction: Conjunction, options: seq<LabeledValue>, selected: seq<TraitSelection>)

  datatype SelectData = SelectData(
    title: string,
    options: seq<LabeledValue>,
    /** Defaults to the object key of the filter. */
    optionPrefix: Option<string>,
    selected: string)

  datatype SortType = Alpha | Numeric

  datatype SortDirection = Asc | Desc

  datatype OrderOption = OrderOption(title: string, kind: SortType)

  datatype OrderData = OrderData(
    sortBy: string,
    direction: SortDirection,
    /** Keyed by an index key present on the entries. */
    options: map<string, OrderOption>,
    kind: SortType)

  datatype RangeValues = RangeValues(min: int, max: int, inputMin: string, inputMax: string)

  datatype RangesInputData = RangesInputData(
    changed: bool,
    defaultMin: string,
    defaultMax: string,
    isExpanded: bool,
    values: RangeValues,
    title: string,
    /** Defaults to the object key of the filter. */
    optionPrefix: Option<string>)

  datatype LevelData = LevelData(changed: bool, isExpanded: bool, min: int, max: int, from: int, to: int)

  datatype SearchData = SearchData(text: string)

  /** The filter record of each tab. Every variant carries `order`, `search` and
      `traits`, and a `source` checkbox group; the chip groups are named fields. */
  datatype BrowserFilter =
    | ActionFilters(order: OrderData, search: SearchData, traits: TraitData,
        types: ChipsData, category: ChipsData, source: CheckboxData)
    | BestiaryFilters(order: OrderData, search: SearchData, traits: TraitData,
        rarity: ChipsData, sizes: ChipsData, source: CheckboxData, level: LevelData)
    | CampaignFeatureFilters(order: OrderData, search: SearchData, traits: TraitData,
        category: ChipsData, rarity: ChipsData, level: LevelData, source: CheckboxData)
    | EquipmentFilters(order: OrderData, search: SearchData, traits: TraitData,
        armorTypes: ChipsData, itemTypes: ChipsData, rarity: ChipsData, weaponTypes: ChipsData,
        price: RangesInputData, level: LevelData, source: CheckboxData)
    | FeatFilters(order: OrderData, search: SearchData, traits: TraitData,
        category: ChipsData, skills: ChipsData, rarity: ChipsData, level: LevelData, source: CheckboxData)
    | HazardFilters(order: OrderData, search: SearchData, traits: TraitData,
        complexity: ChipsData, rarity: ChipsData, level: LevelData, source: CheckboxData)
    | SpellFilters(order: OrderData, search: SearchData, traits: TraitData,
        category: ChipsData, rank: ChipsData, rarity: ChipsData, defense: ChipsData, traditions: ChipsData,
        timefilter: SelectData, source: CheckboxData)
  {
    /** The tab a filter record belongs to. */
    function Tab(): TabName {
      match this
      case ActionFilters(_, _, _, _, _, _) => Action
      case BestiaryFilters(_, _, _, _, _, _, _) => Bestiary
      case CampaignFeatureFilters(_, _, _, _, _, _, _) => CampaignFeature
      case EquipmentFilters(_, _, _, _, _, _, _, _, _, _) => Equipment
      case FeatFilters(_, _, _, _, _, _, _, _) => Feat
      case HazardFilters(_, _, _, _, _, _, _) => Hazard
      case SpellFilters(_, _, _, _, _, _, _, _, _, _) => Spell
    }

    /** Whether the record has a level slider: every variant except actions and spells. */
    predicate HasLevel() { !ActionFilters? && !SpellFilters? }

    /** The chip groups as `[key, chips]` pairs, in the order the tab declares them. */
    function Chips(): (r: seq<(string, ChipsData)>)
      ensures |r| >= 2
    {
      match this
      case ActionFilters(_, _, _, types, category, _) => [("types", types), ("category", category)]
      case BestiaryFilters(_, _, _, rarity, sizes, _, _) => [("sizes", sizes), ("rarity", rarity)]
      case CampaignFeatureFilters(_, _, _, category, rarity, _, _) => [("category", category), ("rarity", rarity)]
      case EquipmentFilters(_, _, _, armorTypes, itemTypes, rarity, weaponTypes, _, _, _) =>
        [("itemTypes", itemTypes), ("rarity", rarity), ("armorTypes", armorTypes), ("weaponTypes", weaponTypes)]
      case FeatFilters(_, _, _, category, skills, rarity, _, _) =>
        [("category", category), ("skills", skills), ("rarity", rarity)]
      case HazardFilters(_, _, _, complexity, rarity, _, _) => [("complexity", complexity), ("rarity", rarity)]
      case SpellFilters(_, _, _, category, rank, rarity, defense, traditions, _, _) =>
        [("category", category), ("traditions", traditions), ("rank", rank), ("defense", defense), ("rarity", rarity)]
    }

    /** The range inputs as `[key, range]` pairs: only equipment has one, keyed `price`. */
    function Ranges(): (r: seq<(string, RangesInputData)>)
      ensures r != [] <==> EquipmentFilters?
    {
      if EquipmentFilters? then [("price", price)] else []
    }

    /** The selects as `[key, select]` pairs: only spells have one, keyed `timefilter`. */
    function Selects(): (r: seq<(string, SelectData)>)
      ensures r != [] <==> SpellFilters?
    {
      if SpellFilters? then [("timefilter", timefilter)] else []
    }

    /** The checkbox groups as `[key, checkbox]` pairs. No variant of the union declares
        them, so the list is always empty. */
    function Checkboxes(): (r: seq<(string, CheckboxData)>)
      ensures |r| == 0
    {
      []
    }
  }

  /** The effective prefix of a widget: its `optionPrefix`, else its key. */
  function PrefixOf(optionPrefix: Option<string>, key: string): string {
    optionPrefix.GetOr(key)
  }
}
