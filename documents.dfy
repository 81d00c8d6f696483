/** The compendium index records the browser tabs read: the item fields the five item
    tabs request and the actor fields the two actor tabs request. A field the pack did
    not index is `Undefined`; an object-valued field that is present is an object (a
    present `null` in place of an object is outside the model); a `system` object is
    always present. */
module Documents {
  import opened Wrappers

  /** The value of `system.price.value`: a price string of old data, a coin record, or
      nothing. */
  datatype PriceValue =
    | PriceText(text: string)
    | PriceCoins(pp: int, gp: int, sp: int, cp: int)
    | PriceUnset

  /** The rune counts of `system.runes`; a rune the record does not carry counts as 0,
      which is falsy like the missing value. */
  datatype Runes = Runes(potency: int, reinforcing: int, resilient: int, striking: int) {
    /** `runes.potency || runes.reinforcing || runes.resilient || runes.striking`. */
    predicate AnyRune() { potency != 0 || reinforcing != 0 || resilient != 0 || striking != 0 }
  }

  datatype SaveDefense = SaveDefense(basic: bool, statistic: string)

  datatype PassiveDefense = PassiveDefense(statistic: string)

  /** `system.defense` of a spell: an optional save and an optional passive defense. */
  datatype Defense = Defense(save: Option<SaveDefense>, passive: Option<PassiveDefense>)

  /** An object the browser tests for presence only. */
  datatype Present = Present

  /** `system.featType`: absent or not a plain object, or a plain object with a `value`. */
  datatype FeatType = NoFeatType | FeatTypeObject(value: JsValue<string>)

  datatype ItemTraits = ItemTraits(value: JsValue<seq<string>>, rarity: JsValue<string>, traditions: JsValue<seq<string>>)

  /** An item index record. */
  datatype ItemRecord = ItemRecord(
    kind: string,
    name: string,
    originalName: JsValue<string>,
    img: JsValue<string>,
    uuid: string,
    /** `system.publication?.title` and `system.source?.value`. */
    publicationTitle: JsValue<string>,
    sourceValue: JsValue<string>,
    traits: Option<ItemTraits>,
    /** `system.level.value`. */
    level: JsValue<int>,
    stackGroup: JsValue<string>,
    /** `system.price`, by the value it holds. */
    price: Option<PriceValue>,
    runes: Option<Runes>,
    category: JsValue<string>,
    group: JsValue<string>,
    defense: JsValue<Defense>,
    /** `system.time`, by the value it holds. */
    time: Option<JsValue<string>>,
    ritual: JsValue<Present>,
    featType: FeatType,
    /** `system.prerequisites.value`: the prerequisite list, each with an optional text. */
    prerequisites: JsValue<seq<JsValue<string>>>,
    actionType: JsValue<string>,
    actions: JsValue<int>)
  {
    /** Whether a requested path has a value other than `undefined`
        (`fu.getProperty(data, path) !== undefined`); for the paths `fu.hasProperty` is
        asked about, whether the property is there. */
    predicate Defines(path: string) {
      match path
      case "img" => !img.Undefined?
      case "system.price" => price.Some?
      case "system.traits" => traits.Some?
      case "system.traits.value" => traits.Some? && !traits.value.value.Undefined?
      case "system.level.value" => !level.Undefined?
      case "system.runes" => runes.Some?
      case "system.category" => !category.Undefined?
      case "system.group" => !group.Undefined?
      case "system.defense" => !defense.Undefined?
      case "system.time" => time.Some?
      case "system.ritual" => !ritual.Undefined?
      case "system.featType.value" => featType.FeatTypeObject? && !featType.value.Undefined?
      case "system.prerequisites.value" => !prerequisites.Undefined?
      case "system.actionType.value" => !actionType.Undefined?
      case "system.actions.value" => !actions.Undefined?
      case _ => false
    }
  }

  datatype ActorTraits = ActorTraits(value: JsValue<seq<string>>, rarity: JsValue<string>, size: Option<JsValue<string>>)

  /** An actor index record. */
  datatype ActorRecord = ActorRecord(
    kind: string,
    name: string,
    originalName: JsValue<string>,
    img: JsValue<string>,
    uuid: string,
    /** `system.details.publication?.title` and `system.details.source?.value`. */
    publicationTitle: JsValue<string>,
    sourceValue: JsValue<string>,
    traits: Option<ActorTraits>,
    /** `system.details.level.value`. */
    level: JsValue<int>,
    isComplex: JsValue<bool>)
  {
    predicate Defines(path: string) {
      match path
      case "img" => !img.Undefined?
      case "system.details.level.value" => !level.Undefined?
      case "system.details.isComplex" => !isComplex.Undefined?
      case "system.traits" => traits.Some?
      case _ => false
    }
  }
}
