/** Migration 0.717: marks the feats that may only be taken at level 1 and sets how
    many times each feat may be taken. */
module Migration717 {
  import opened Wrappers

  /** The schema version the migration brings a source to. */
  const Version: real := 0.717

  /** The feats that can only be taken at level 1. */
  const LevelOneOnly: set<string> := {
    "celestial-eyes", "chance-death", "deliberate-death", "elemental-eyes",
    "eyes-of-the-night", "fiendish-eyes", "gravesight", "willing-death"
  }

  /** How many times a feat on this list may be taken. */
  const MaxTakeable: map<string, Limit> := map[
    "additional-lore" := Infinity,
    "advanced-domain" := Infinity,
    "advanced-general-training" := Infinity,
    "animal-senses" := Infinity,
    "animal-senses-darkvision" := Infinity,
    "animal-senses-low-light-vision" := Infinity,
    "animal-senses-scent-imprecise" := Infinity,
    "armor-proficiency" := Finite(3),
    "assurance" := Infinity,
    "automatic-knowledge" := Infinity,
    "blessing-of-the-sun-gods" := Infinity,
    "consult-the-spirits" := Infinity,
    "domain-initiate" := Infinity,
    "general-training" := Infinity,
    "greater-animal-senses" := Infinity,
    "greater-sun-blessing" := Infinity,
    "hellknight-order-cross-training" := Infinity,
    "living-weapon" := Infinity,
    "magic-arrow" := Infinity,
    "modular-dynamo" := Infinity,
    "multilingual" := Infinity,
    "settlement-scholastics" := Infinity,
    "skill-training" := Infinity,
    "terrain-stalker" := Infinity
  ]

  /** The table lookup as written: the `in` operator also finds inherited keys. */
  predicate InTableAsWritten(slug: string) {
    slug in MaxTakeable || slug in InheritedKeys
  }

  /** As written, the slug `constructor` passes the table test although the table has no
      number for it, so the limit assigned would be the inherited `Object` function. */
  lemma InheritedKeyPassesTable()
    ensures InTableAsWritten("constructor") && "constructor" !in MaxTakeable
  {
  }

  /** The table lookup on the table's own keys. */
  predicate InTable(slug: string) {
    slug in MaxTakeable
  }

  /** Every slug the corrected lookup finds has a limit of 3 or no limit at all, and only
      `armor-proficiency` has 3. */
  lemma TableLimits(slug: string)
    requires InTable(slug)
    ensures MaxTakeable[slug] == (if slug == "armor-proficiency" then Finite(3) else Infinity)
  {
  }

  lemma EarlyLevelOneOutsideTable()
    ensures "celestial-eyes" !in MaxTakeable && "chance-death" !in MaxTakeable
    ensures "deliberate-death" !in MaxTakeable && "elemental-eyes" !in MaxTakeable
  {
  }

  lemma LateLevelOneOutsideTable()
    ensures "eyes-of-the-night" !in MaxTakeable && "fiendish-eyes" !in MaxTakeable
    ensures "gravesight" !in MaxTakeable && "willing-death" !in MaxTakeable
  {
  }

  /** No feat is both level-one-only and in the table, and the empty slug is in neither. */
  lemma TablesDisjoint()
    ensures forall s | s in LevelOneOnly :: !InTable(s)
    ensures "" !in LevelOneOnly && !InTable("")
  {
    EarlyLevelOneOutsideTable();
    LateLevelOneOutsideTable();
  }

  /** The two fields of a feat's system data the migration writes; `None` is a field the
      source does not have. */
  datatype FeatLimits = FeatLimits(onlyLevel1: Option<bool>, maxTakable: Option<Limit>)

  /** An absent `onlyLevel1` reads as false. */
  predicate Restricted(onlyLevel1: Option<bool>) {
    onlyLevel1 == Some(true)
  }

  /** `updateItem` on an item source of type `kind`, with `slug` missing when the source
      has none; `game` tells whether the `game` global exists. */
  function Migrated(kind: string, slug: Option<string>, traits: seq<string>, d: FeatLimits, game: bool): (r: FeatLimits)
    ensures kind != "feat" ==> r == d
  {
    if kind != "feat" then d
    else
      var s := slug.GetOr("");
      var only := if "lineage" in traits || s in LevelOneOnly then Some(true) else if game then Some(false) else d.onlyLevel1;
      var max := if !Restricted(only) && InTable(s) then Some(MaxTakeable[s]) else if game then Some(Finite(1)) else d.maxTakable;
      FeatLimits(only, max)
  }

  /** Running the migration again changes nothing. */
  lemma MigratedIdempotent(kind: string, slug: Option<string>, traits: seq<string>, d: FeatLimits, game: bool)
    ensures var once := Migrated(kind, slug, traits, d, game);
      Migrated(kind, slug, traits, once, game) == once
  {
  }

  /** Without the `game` global, only a level-one-only feat has `onlyLevel1` written (as
      true), and only a feat that is then unrestricted and in the table has its limit
      written (as the table's value); every other field keeps what it held. */
  lemma WithoutGameRules(slug: Option<string>, traits: seq<string>, d: FeatLimits)
    ensures var r := Migrated("feat", slug, traits, d, false);
      var s := slug.GetOr("");
      && r.onlyLevel1 == (if "lineage" in traits || s in LevelOneOnly then Some(true) else d.onlyLevel1)
      && r.maxTakable == (if !Restricted(r.onlyLevel1) && InTable(s) then Some(MaxTakeable[s]) else d.maxTakable)
  {
  }

  /** A feat without a slug is treated as one with the empty slug: only the lineage trait
      can make it level-one-only, and the table never gives it a limit. */
  lemma MissingSlugIsEmpty(traits: seq<string>, d: FeatLimits, game: bool)
    ensures Migrated("feat", None, traits, d, game) == Migrated("feat", Some(""), traits, d, game)
    ensures Migrated("feat", None, traits, d, game).onlyLevel1 == if "lineage" in traits then Some(true) else if game then Some(false) else d.onlyLevel1
    ensures Migrated("feat", None, traits, d, game).maxTakable == if game then Some(Finite(1)) else d.maxTakable
  {
    TablesDisjoint();
  }

  /** A level-one-only feat is marked as such and gets no limit from the table: with the
      `game` global it may be taken once, without it its limit is untouched. */
  lemma LevelOneFeatsTakenOnce(slug: string, traits: seq<string>, d: FeatLimits, game: bool)
    requires slug in LevelOneOnly || "lineage" in traits
    ensures Migrated("feat", Some(slug), traits, d, game).onlyLevel1 == Some(true)
    ensures Migrated("feat", Some(slug), traits, d, game).maxTakable == if game then Some(Finite(1)) else d.maxTakable
  {
  }

  /** With the `game` global, every feat ends with both fields set: it is level-one-only
      exactly when it has the lineage trait or is on the list, and it may be taken the
      table's number of times when it is not level-one-only and in the table, else once. */
  lemma WithGameBothSet(slug: Option<string>, traits: seq<string>, d: FeatLimits)
    ensures var r := Migrated("feat", slug, traits, d, true);
      var s := slug.GetOr("");
      && r.onlyLevel1 == Some("lineage" in traits || s in LevelOneOnly)
      && r.maxTakable == Some(if !("lineage" in traits || s in LevelOneOnly) && InTable(s) then MaxTakeable[s] else Finite(1))
  {
  }

  /** A feat's source, with the two fields the migration assigns. */
  class ItemSource {
    const kind: string
    const slug: Option<string>
    const traits: seq<string>
    var onlyLevel1: Option<bool>
    var maxTakable: Option<Limit>

    function Limits(): FeatLimits
      reads this
    {
      FeatLimits(onlyLevel1, maxTakable)
    }

    constructor(kind: string, slug: Option<string>, traits: seq<string>, onlyLevel1: Option<bool>, maxTakable: Option<Limit>)
      ensures this.kind == kind && this.slug == slug && this.traits == traits
      ensures Limits() == FeatLimits(onlyLevel1, maxTakable)
    {
      this.kind := kind;
      this.slug := slug;
      this.traits := traits;
      this.onlyLevel1 := onlyLevel1;
      this.maxTakable := maxTakable;
    }
  }

  /** `Migration717TakeFeatLimits.updateItem`: the fields are assigned in place. */
  method UpdateItem(source: ItemSource, game: bool)
    modifies source
    ensures source.Limits() == Migrated(source.kind, source.slug, source.traits, old(source.Limits()), game)
  {
    if source.kind != "feat" {
      return;
    }
    var slug := source.slug.GetOr("");
    if "lineage" in source.traits || slug in LevelOneOnly {
      source.onlyLevel1 := Some(true);
    } else if game {
      source.onlyLevel1 := Some(false);
    }
    if !Restricted(source.onlyLevel1) && slug in MaxTakeable {
      source.maxTakable := Some(MaxTakeable[slug]);
    } else if game {
      source.maxTakable := Some(Finite(1));
    }
  }
}
