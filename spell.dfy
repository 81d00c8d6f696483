/** The spell tab: the category, casting-time, tradition, trait and defense tags of a
    spell, its option lists and its default filter. */
module SpellTab {
  import opened Wrappers
  import opened Strings
  import opened FilterData
  import opened Documents
  import opened Records
  import opened Options
  import Sorting
  import Compiler

  const IndexFields: seq<string> := ["img", "system.defense", "system.level.value", "system.time", "system.traits",
                                      "system.publication", "system.ritual", "system.source"]

  /** The fields whose absence can make a spell fail the check. */
  const CheckedFields: seq<string> := ["img", "system.defense", "system.level.value", "system.time", "system.traits"]

  /** `system.ritual ??= null`, done before the field check. */
  function WithRitualDefault(r: ItemRecord): (s: ItemRecord)
    ensures s.Defines("system.ritual")
    ensures s == r.(ritual := s.ritual)
    ensures r.ritual.Val? <==> s.ritual.Val?
  {
    if r.ritual.Undefined? then r.(ritual := Null) else r
  }

  /** The record can be read past the field check without an exception: the trait list
      and the tradition list are arrays. */
  predicate Readable(r: ItemRecord) {
    r.traits.Some? && r.time.Some? && r.traits.value.value.Val? && r.traits.value.traditions.Val?
  }

  function Traits(r: ItemRecord): seq<string>
    requires Readable(r)
  {
    r.traits.value.value.value
  }

  function Traditions(r: ItemRecord): seq<string>
    requires Readable(r)
  {
    r.traits.value.traditions.value
  }

  predicate IsCantrip(r: ItemRecord) requires Readable(r) { "cantrip" in Traits(r) }

  /** A focus spell has the `focus` trait, or is a cantrip without traditions. */
  predicate IsFocus(r: ItemRecord) requires Readable(r) {
    "focus" in Traits(r) || (IsCantrip(r) && |Traditions(r)| == 0)
  }

  /** `!!system.ritual`: a ritual object is present. */
  predicate IsRitual(r: ItemRecord) { r.ritual.Val? }

  predicate IsSpell(r: ItemRecord) requires Readable(r) { !IsCantrip(r) && !IsFocus(r) && !IsRitual(r) }

  /** The categories of a spell, in the order spell, cantrip, focus, ritual. */
  function Categories(r: ItemRecord): (cs: seq<string>)
    requires Readable(r)
    ensures 1 <= |cs| <= 3
  {
    (if IsSpell(r) then ["spell"] else [])
    + (if IsCantrip(r) then ["cantrip"] else [])
    + (if IsFocus(r) then ["focus"] else [])
    + (if IsRitual(r) then ["ritual"] else [])
  }

  /** Which categories a spell has. */
  lemma CategoriesMember(r: ItemRecord)
    requires Readable(r)
    ensures "spell" in Categories(r) <==> IsSpell(r)
    ensures "cantrip" in Categories(r) <==> IsCantrip(r)
    ensures "focus" in Categories(r) <==> IsFocus(r)
    ensures "ritual" in Categories(r) <==> IsRitual(r)
  {
  }

  /** The casting time as the tab normalises it: a non-empty string mentioning a reaction
      becomes `reaction`, any other non-empty string is slugified, and anything else is no
      casting time. */
  function NormalizedTime(r: ItemRecord, env: Env): Option<string>
    requires r.time.Some?
  {
    match r.time.value
    case Val(s) =>
      if s == "" then None
      else if Contains(env.lower(s), "reaction") then Some("reaction")
      else Some(env.slug(s))
    case _ => None
  }

  function OptionList(o: Option<string>): (s: seq<string>)
    ensures forall x :: x in s <==> o == Some(x)
  {
    if o.Some? then [o.value] else []
  }

  /** The tags added before the defense is looked at. */
  function EarlyPairs(r: ItemRecord, env: Env): seq<(string, string)>
    requires Readable(r)
  {
    Pairs("category", Categories(r)) + Pairs("time", OptionList(NormalizedTime(r, env)))
    + Pairs("tradition", Traditions(r)) + TraitPairs(Traits(r), true)
  }

  /** The defense values: the save (with `save:basic` for a basic save), the first
      dash-separated part of the passive defense, and `passive:armor` for an attack spell
      without a defense that is not a ritual, as read from the tags added so far. */
  function DefenseValues(defense: JsValue<Defense>, early: set<string>): seq<string> {
    if defense.Val? then
      var d := defense.value;
      (if d.save.Some? then (if d.save.value.basic then ["save:basic"] else []) + ["save:" + d.save.value.statistic] else [])
      + (if d.passive.Some? then ["passive:" + Split(d.passive.value.statistic, '-')[0]] else [])
    else if "trait:attack" in early && "category:ritual" !in early then ["passive:armor"]
    else []
  }

  function Publication(r: ItemRecord): string {
    Trim(PubSource(r.publicationTitle, r.sourceValue))
  }

  function Rarity(r: ItemRecord): JsValue<string> {
    if r.traits.Some? then r.traits.value.rarity else Undefined
  }

  function FixedPairs(r: ItemRecord): seq<(string, string)> {
    [("rank", ShowInt(r.level)), ("rarity", ShowString(Rarity(r))), ("type", "spell")]
  }

  function DomainPairs(r: ItemRecord, env: Env): seq<(string, string)>
    requires Readable(r)
  {
    var early := EarlyPairs(r, env);
    early + Pairs("defense", DefenseValues(r.defense, Tags(early))) + SourcePairs(Publication(r), env.slug) + FixedPairs(r)
  }

  function Domains(r: ItemRecord, env: Env): set<string>
    requires Readable(r)
  {
    Tags(DomainPairs(r, env))
  }

  /** What the tab makes of one item record. */
  function Build(env: Env, record: ItemRecord): Built {
    if record.kind != "spell" then Ignored
    else
      var r := WithRitualDefault(record);
      if !HasAllIndexFields(p => r.Defines(p), IndexFields) then Skipped
      else if !Readable(r) then Thrown
      else
        var pub := Publication(r);
        Indexed(
          IndexEntry(r.name, r.originalName, r.img, r.uuid, Undefined, r.level, Undefined, Rarity(r),
                     env.actionGlyph(r.time.value), Domains(r, env)),
          if pub != "" then Some(pub) else None,
          NormalizedTime(r, env))
  }

  // ---- what the builder promises ------------------------------------------------------

  /** Other records are ignored; a spell is skipped exactly when it misses one of the
      checked fields, so a missing ritual never skips it; a spell whose trait or tradition
      list is not an array aborts the load. */
  lemma BuildOutcome(env: Env, r: ItemRecord)
    ensures Build(env, r).Ignored? <==> r.kind != "spell"
    ensures Build(env, r).Skipped? <==> r.kind == "spell" && !HasAllIndexFields(p => r.Defines(p), CheckedFields)
    ensures Build(env, r).Thrown? <==>
      r.kind == "spell" && HasAllIndexFields(p => r.Defines(p), CheckedFields) && !Readable(r)
  {
    if r.kind == "spell" {
      var s := WithRitualDefault(r);
      RitualDefaultFields(r);
      assert Readable(s) <==> Readable(r);
    }
  }

  /** With the ritual default applied, the field check passes exactly when the record
      has the checked fields. */
  lemma RitualDefaultFields(r: ItemRecord)
    ensures var s := WithRitualDefault(r);
      HasAllIndexFields(p => s.Defines(p), IndexFields) <==> HasAllIndexFields(p => r.Defines(p), CheckedFields)
  {
    var s := WithRitualDefault(r);
    var ds := p => s.Defines(p);
    var rest := ["system.publication", "system.ritual", "system.source"];
    assert IndexFields == CheckedFields + rest;
    HasAllAppend(ds, CheckedFields, rest);
    SystemPathsExempt();
    assert HasAllIndexFields(ds, rest);
    forall p | p != "system.ritual" ensures s.Defines(p) == r.Defines(p) {
    }
    assert |"system.ritual"| == 13 && "system.ritual"[7] == 'r' && "system.traits"[7] == 't';
    assert forall i | 0 <= i < |CheckedFields| :: CheckedFields[i] != "system.ritual";
  }

  lemma DomainPairsColonFree(r: ItemRecord, env: Env)
    requires Readable(r)
    ensures ColonFree(DomainPairs(r, env))
  {
    assert NoColon("category") && NoColon("time") && NoColon("tradition") && NoColon("defense");
    assert NoColon("rank") && NoColon("rarity") && NoColon("type");
    var c := Pairs("category", Categories(r));
    var t := Pairs("time", OptionList(NormalizedTime(r, env)));
    var d := Pairs("tradition", Traditions(r));
    PairsColonFree("category", Categories(r));
    PairsColonFree("time", OptionList(NormalizedTime(r, env)));
    PairsColonFree("tradition", Traditions(r));
    TraitPairsColonFree(Traits(r), true);
    ColonFreeAppend(c, t);
    ColonFreeAppend(c + t, d);
    ColonFreeAppend(c + t + d, TraitPairs(Traits(r), true));
    var early := EarlyPairs(r, env);
    var dv := DefenseValues(r.defense, Tags(early));
    PairsColonFree("defense", dv);
    ColonFreeAppend(early, Pairs("defense", dv));
    SourcePairsColonFree(Publication(r), env.slug);
    ColonFreeAppend(early + Pairs("defense", dv), SourcePairs(Publication(r), env.slug));
    assert ColonFree(FixedPairs(r));
    ColonFreeAppend(early + Pairs("defense", dv) + SourcePairs(Publication(r), env.slug), FixedPairs(r));
  }

  /** The pairs of the early tags, family by family. */
  lemma EarlyMember(r: ItemRecord, env: Env, q: string, x: string)
    requires Readable(r)
    ensures (q, x) in EarlyPairs(r, env) <==>
      || (q == "category" && x in Categories(r))
      || (q == "time" && NormalizedTime(r, env) == Some(x))
      || (q == "tradition" && x in Traditions(r))
      || (q == "trait" && x in StripAll(Traits(r)))
  {
    PairsMember("category", Categories(r), q, x);
    PairsMember("time", OptionList(NormalizedTime(r, env)), q, x);
    PairsMember("tradition", Traditions(r), q, x);
    TraitPairsMember(Traits(r), true, q, x);
  }

  /** The pairs of all the tags, family by family. */
  lemma PairsMemberOfSpell(r: ItemRecord, env: Env, q: string, x: string)
    requires Readable(r)
    ensures var early := EarlyPairs(r, env);
      (q, x) in DomainPairs(r, env) <==>
      || (q, x) in early
      || (q == "defense" && x in DefenseValues(r.defense, Tags(early)))
      || (q == "source" && Publication(r) != "" && x == env.slug(Publication(r)))
      || (q, x) in FixedPairs(r)
  {
    var early := EarlyPairs(r, env);
    PairsMember("defense", DefenseValues(r.defense, Tags(early)), q, x);
    var sp := SourcePairs(Publication(r), env.slug);
    if (q, x) in sp { assert q == "source"; }
  }

  /** A tag of a spell is present exactly when its pair is listed. */
  lemma DomainMember(env: Env, r: ItemRecord, p: string, x: string)
    requires Readable(r) && NoColon(p)
    ensures Tag(p, x) in Domains(r, env) <==> (p, x) in DomainPairs(r, env)
  {
    DomainPairsColonFree(r, env);
    TagsMember(DomainPairs(r, env), p, x);
  }

  lemma EarlyColonFree(r: ItemRecord, env: Env)
    requires Readable(r)
    ensures ColonFree(EarlyPairs(r, env))
  {
    assert NoColon("category") && NoColon("time") && NoColon("tradition");
    PairsColonFree("category", Categories(r));
    PairsColonFree("time", OptionList(NormalizedTime(r, env)));
    PairsColonFree("tradition", Traditions(r));
    TraitPairsColonFree(Traits(r), true);
    var c := Pairs("category", Categories(r));
    var t := Pairs("time", OptionList(NormalizedTime(r, env)));
    var d := Pairs("tradition", Traditions(r));
    ColonFreeAppend(c, t);
    ColonFreeAppend(c + t, d);
    ColonFreeAppend(c + t + d, TraitPairs(Traits(r), true));
  }

  /** What the defense step reads from the tags added before it: the stripped `attack`
      trait and the ritual category. */
  lemma EarlyChecks(r: ItemRecord, env: Env)
    requires Readable(r)
    ensures "trait:attack" in Tags(EarlyPairs(r, env)) <==> "attack" in StripAll(Traits(r))
    ensures "category:ritual" in Tags(EarlyPairs(r, env)) <==> IsRitual(r)
  {
    EarlyColonFree(r, env);
    AttackCheck(r, env);
    RitualCheck(r, env);
  }

  lemma AttackCheck(r: ItemRecord, env: Env)
    requires Readable(r) && ColonFree(EarlyPairs(r, env))
    ensures "trait:attack" in Tags(EarlyPairs(r, env)) <==> "attack" in StripAll(Traits(r))
  {
    assert NoColon("trait");
    TagsMember(EarlyPairs(r, env), "trait", "attack");
    assert |"trait"| == 5 && |"category"| == 8 && |"time"| == 4 && |"tradition"| == 9;
    EarlyMember(r, env, "trait", "attack");
    assert Tag("trait", "attack") == "trait:attack";
  }

  lemma RitualCheck(r: ItemRecord, env: Env)
    requires Readable(r) && ColonFree(EarlyPairs(r, env))
    ensures "category:ritual" in Tags(EarlyPairs(r, env)) <==> IsRitual(r)
  {
    assert NoColon("category");
    TagsMember(EarlyPairs(r, env), "category", "ritual");
    assert |"trait"| == 5 && |"category"| == 8 && |"time"| == 4 && |"tradition"| == 9;
    EarlyMember(r, env, "category", "ritual");
    RitualCategory(r);
    assert Tag("category", "ritual") == "category:ritual";
  }

  lemma RitualCategory(r: ItemRecord)
    requires Readable(r)
    ensures "ritual" in Categories(r) <==> IsRitual(r)
  {
    assert |"ritual"| == 6 && |"spell"| == 5 && |"cantrip"| == 7 && |"focus"| == 5;
  }

  /** The `category:` tags are exactly the categories. */
  lemma CategoryMember(env: Env, r: ItemRecord, c: string)
    requires Readable(r)
    ensures Tag("category", c) in Domains(r, env) <==> c in Categories(r)
  {
    assert NoColon("category");
    DomainMember(env, r, "category", c);
    PairsMemberOfSpell(r, env, "category", c);
    assert ("category", c) !in FixedPairs(r);
    EarlyMember(r, env, "category", c);
  }

  /** `category:spell` marks the spells that are neither cantrips, focus spells nor
      rituals; the other three categories can occur together, and every spell has one. */
  lemma CategoryTags(env: Env, r: ItemRecord)
    requires Readable(r)
    ensures Tag("category", "spell") in Domains(r, env) <==> !IsCantrip(r) && !IsFocus(r) && !IsRitual(r)
    ensures Tag("category", "cantrip") in Domains(r, env) <==> IsCantrip(r)
    ensures Tag("category", "focus") in Domains(r, env) <==> IsFocus(r)
    ensures Tag("category", "ritual") in Domains(r, env) <==> IsRitual(r)
    ensures exists c :: Tag("category", c) in Domains(r, env)
  {
    CategoriesMember(r);
    CategoryMember(env, r, "spell");
    CategoryMember(env, r, "cantrip");
    CategoryMember(env, r, "focus");
    CategoryMember(env, r, "ritual");
    CategoryMember(env, r, Categories(r)[0]);
  }

  /** A non-empty casting time mentioning a reaction, in any letter case, normalises to
      `reaction`; the normalised time is the spell's only `time:` tag and is collected. */
  lemma TimeTag(env: Env, r: ItemRecord, x: string)
    requires Readable(r)
    ensures Tag("time", x) in Domains(r, env) <==> NormalizedTime(r, env) == Some(x)
    ensures r.time.value.Val? && r.time.value.value != "" && Contains(env.lower(r.time.value.value), "reaction") ==>
      NormalizedTime(r, env) == Some("reaction")
    ensures !r.time.value.Val? || r.time.value.value == "" ==> NormalizedTime(r, env).None?
  {
    assert NoColon("time");
    assert |"time"| == 4 && |"category"| == 8 && |"tradition"| == 9 && |"trait"| == 5;
    assert |"defense"| == 7 && |"source"| == 6 && |"rarity"| == 6;
    assert "time"[1] != "type"[1] && "time"[0] != "rank"[0];
    DomainMember(env, r, "time", x);
    PairsMemberOfSpell(r, env, "time", x);
    EarlyMember(r, env, "time", x);
  }

  /** Every tradition is tagged, and every trait with a leading `hb_` removed. */
  lemma TraditionAndTraitTags(env: Env, r: ItemRecord, x: string)
    requires Readable(r)
    ensures Tag("tradition", x) in Domains(r, env) <==> x in Traditions(r)
    ensures Tag("trait", x) in Domains(r, env) <==> x in StripAll(Traits(r))
  {
    assert NoColon("tradition") && NoColon("trait");
    DomainMember(env, r, "tradition", x);
    PairsMemberOfSpell(r, env, "tradition", x);
    EarlyMember(r, env, "tradition", x);
    DomainMember(env, r, "trait", x);
    PairsMemberOfSpell(r, env, "trait", x);
    EarlyMember(r, env, "trait", x);
  }

  /** The `defense:` tags are exactly the defense values. */
  lemma DefenseMember(env: Env, r: ItemRecord, x: string)
    requires Readable(r)
    ensures Tag("defense", x) in Domains(r, env) <==> x in DefenseValues(r.defense, Tags(EarlyPairs(r, env)))
  {
    assert NoColon("defense");
    assert |"defense"| == 7 && |"category"| == 8 && |"time"| == 4 && |"tradition"| == 9 && |"trait"| == 5;
    assert |"source"| == 6 && |"rank"| == 4 && |"rarity"| == 6 && |"type"| == 4;
    DomainMember(env, r, "defense", x);
    PairsMemberOfSpell(r, env, "defense", x);
    EarlyMember(r, env, "defense", x);
  }

  /** The defense tags: a save tags its statistic and, when basic, `save:basic`; a passive
      defense tags the first part of its statistic; and an attack spell with no defense
      that is not a ritual is tagged as targeting armor, and has no other defense tag. */
  lemma DefenseTags(env: Env, r: ItemRecord)
    requires Readable(r)
    ensures r.defense.Val? && r.defense.value.save.Some? ==>
      Tag("defense", "save:" + r.defense.value.save.value.statistic) in Domains(r, env)
    ensures r.defense.Val? && r.defense.value.save.Some? && r.defense.value.save.value.basic ==>
      Tag("defense", "save:basic") in Domains(r, env)
    ensures r.defense.Val? && r.defense.value.passive.Some? ==>
      Tag("defense", "passive:" + Split(r.defense.value.passive.value.statistic, '-')[0]) in Domains(r, env)
    ensures !r.defense.Val? ==>
      (Tag("defense", "passive:armor") in Domains(r, env) <==> "attack" in StripAll(Traits(r)) && !IsRitual(r))
    ensures !r.defense.Val? ==> forall x :: Tag("defense", x) in Domains(r, env) ==> x == "passive:armor"
  {
    EarlyChecks(r, env);
    var dv := DefenseValues(r.defense, Tags(EarlyPairs(r, env)));
    if r.defense.Val? {
      var d := r.defense.value;
      if d.save.Some? {
        DefenseMember(env, r, "save:" + d.save.value.statistic);
        DefenseMember(env, r, "save:basic");
      }
      if d.passive.Some? {
        DefenseMember(env, r, "passive:" + Split(d.passive.value.statistic, '-')[0]);
      }
    } else {
      DefenseMember(env, r, "passive:armor");
      forall x | Tag("defense", x) in Domains(r, env) ensures x == "passive:armor" {
        DefenseMember(env, r, x);
      }
    }
  }

  /** Every spell carries its rank, its rarity and `type:spell`. */
  lemma AlwaysTagged(env: Env, r: ItemRecord)
    requires Readable(r)
    ensures Tag("rank", ShowInt(r.level)) in Domains(r, env)
    ensures Tag("rarity", ShowString(Rarity(r))) in Domains(r, env)
    ensures Tag("type", "spell") in Domains(r, env)
  {
    assert NoColon("rank") && NoColon("rarity") && NoColon("type");
    DomainMember(env, r, "rank", ShowInt(r.level));
    DomainMember(env, r, "rarity", ShowString(Rarity(r)));
    DomainMember(env, r, "type", "spell");
    PairsMemberOfSpell(r, env, "rank", ShowInt(r.level));
    PairsMemberOfSpell(r, env, "rarity", ShowString(Rarity(r)));
    PairsMemberOfSpell(r, env, "type", "spell");
  }

  /** An indexed spell is the record with the ritual default applied: its entry carries
      those tags, the rank, and the action glyph of the unnormalised casting time, and the
      normalised time is collected. */
  lemma BuildIndexed(env: Env, r: ItemRecord)
    requires Build(env, r).Indexed?
    ensures var s := WithRitualDefault(r);
      && Readable(s)
      && Build(env, r).entry.domains == Domains(s, env)
      && Build(env, r).entry.rank == r.level && Build(env, r).entry.level.Undefined?
      && Build(env, r).entry.actionGlyph == env.actionGlyph(r.time.value)
      && Build(env, r).time == NormalizedTime(r, env)
      && (Build(env, r).publication.Some? <==> Publication(r) != "")
  {
    var s := WithRitualDefault(r);
    assert s.time == r.time && s.traits == r.traits;
    assert Readable(s);
    assert Publication(s) == Publication(r);
    assert NormalizedTime(s, env) == NormalizedTime(r, env);
    var pub := Publication(s);
    assert Build(env, r) == Indexed(
      IndexEntry(s.name, s.originalName, s.img, s.uuid, Undefined, s.level, Undefined, Rarity(s),
                 env.actionGlyph(s.time.value), Domains(s, env)),
      if pub != "" then Some(pub) else None,
      NormalizedTime(s, env));
  }

  /** A source tag and a collected publication appear exactly when the trimmed publication
      string is not empty. */
  lemma SourceTag(env: Env, r: ItemRecord, x: string)
    requires Readable(r)
    ensures Tag("source", x) in Domains(r, env) <==> Publication(r) != "" && x == env.slug(Publication(r))
  {
    assert NoColon("source");
    assert |"source"| == 6 && |"defense"| == 7 && |"category"| == 8 && |"time"| == 4 && |"tradition"| == 9;
    assert |"trait"| == 5 && |"rank"| == 4 && |"type"| == 4 && "source"[0] != "rarity"[0];
    DomainMember(env, r, "source", x);
    PairsMemberOfSpell(r, env, "source", x);
    EarlyMember(r, env, "source", x);
  }

  // ---- filter options ---------------------------------------------------------------

  /** The rank chips `1` to `10`, labelled with their ordinals. */
  function RankOptions(env: Env): (r: seq<LabeledValue>)
    ensures |r| == 10
  {
    seq(10, i requires 0 <= i < 10 => LabeledValue(env.ordinal(i + 1), IntToString(i + 1)))
  }

  /** The rank chips are valued exactly `"1"` to `"10"`, in order. */
  lemma RankOptionValues(env: Env)
    ensures var o := RankOptions(env);
      [o[0].value, o[1].value, o[2].value, o[3].value, o[4].value, o[5].value, o[6].value, o[7].value,
       o[8].value, o[9].value] == ["1", "2", "3", "4", "5", "6", "7", "8", "9", "10"]
  {
    var o := RankOptions(env);
    forall k | 1 <= k <= 9 ensures o[k - 1].value == [DigitChar(k)] {
      assert o[k - 1].value == IntToString(k) == NatToString(k);
    }
    assert DigitChar(1) == '1' && DigitChar(2) == '2' && DigitChar(3) == '3';
    assert DigitChar(4) == '4' && DigitChar(5) == '5' && DigitChar(6) == '6';
    assert DigitChar(7) == '7' && DigitChar(8) == '8' && DigitChar(9) == '9';
    assert o[9].value == IntToString(10) == NatToString(10) == NatToString(1) + [DigitChar(0)] == "10";
  }

  /** The loop pushing the rank chips onto a list. */
  method PushRankOptions(options: seq<LabeledValue>, env: Env) returns (r: seq<LabeledValue>)
    ensures r == options + RankOptions(env)
  {
    r := options;
    for rank := 1 to 11
      invariant r == options + RankOptions(env)[..rank - 1]
    {
      assert RankOptions(env)[..rank] == RankOptions(env)[..rank - 1] + [LabeledValue(env.ordinal(rank), IntToString(rank))];
      r := r + [LabeledValue(env.ordinal(rank), IntToString(rank))];
    }
  }

  /** The casting times in the UTF-16 code-unit order of the default `sort()`, each
      valued with its slug. */
  function TimeOptions(times: seq<string>, env: Env): (r: seq<LabeledValue>)
    ensures |r| == |times|
  {
    var sorted := Sorting.InsertionSort(times, CompareCodeUnits);
    seq(|sorted|, i requires 0 <= i < |sorted| => LabeledValue(sorted[i], env.slug(sorted[i])))
  }

  /** The time options are the collected times, each once when they were collected once,
      in ascending UTF-16 code-unit order, valued with their slugs. */
  lemma TimeOptionsSpec(times: seq<string>, env: Env)
    ensures var r := TimeOptions(times, env);
      && multiset(seq(|r|, i requires 0 <= i < |r| => r[i].title)) == multiset(times)
      && (forall i, j | 0 <= i < j < |r| :: !LexLess(r[j].title, r[i].title))
      && (forall i | 0 <= i < |r| :: r[i].value == env.slug(r[i].title))
  {
    var sorted := Sorting.InsertionSort(times, CompareCodeUnits);
    var r := TimeOptions(times, env);
    Sorting.SortPermutes(times, CompareCodeUnits);
    CodeUnitOrder();
    Sorting.SortSorted(times, CompareCodeUnits, (s: string) => true);
    assert seq(|r|, i requires 0 <= i < |r| => r[i].title) == sorted;
    forall i, j | 0 <= i < j < |r| ensures !LexLess(r[j].title, r[i].title) {
      assert CompareCodeUnits(sorted[i], sorted[j]) <= 0;
      if LexLess(sorted[j], sorted[i]) {
        LexLessAsymmetric(sorted[i], sorted[j]);
        LexLessIrreflexive(sorted[i]);
      }
    }
  }

  const CategoryTable: ConfigTable := [("spell", "TYPES.Item.spell"), ("cantrip", "PF2E.TraitCantrip"),
                                       ("focus", "PF2E.TraitFocus"), ("ritual", "PF2E.Item.Spell.Ritual.Label")]

  /** The option lists `loadData` computes after the load, with the rank chips given. */
  datatype Lists = Lists(traditions: seq<LabeledValue>, rarity: seq<LabeledValue>, defense: seq<LabeledValue>,
                         traits: seq<LabeledValue>, source: seq<LabeledValue>, category: seq<LabeledValue>,
                         timefilter: seq<LabeledValue>)

  function OptionLists(c: Collected, env: Env): Lists {
    var noSort := Some(GenerateSettings(None, Some(false)));
    Lists(GenerateOptions(env.config("magicTraditions"), None, env),
          GenerateOptions(env.config("rarityTraits"), noSort, env),
          [LabeledValue(env.localize("PF2E.Item.Spell.Defense.BasicSave"), "save:basic")]
          + GenerateOptions(env.config("saves"), Some(GenerateSettings(Some("save"), None)), env)
          + GenerateOptions(Pick(env.config("checkDCs.Specific"), ["armor", "fortitude", "reflex", "will"]),
                            Some(GenerateSettings(Some("passive"), None)), env),
          GenerateOptions(Omit(env.config("spellTraits"), env.magicTraditions), None, env),
          SourceCheckboxOptions(c.publications, env),
          GenerateOptions(CategoryTable, noSort, env),
          TimeOptions(c.times, env))
  }

  /** Assigns the option lists, pushing the rank chips onto the ones already there. */
  function WithOptionsAsWritten(f: BrowserFilter, c: Collected, env: Env): (r: BrowserFilter)
    requires f.SpellFilters?
    ensures r.SpellFilters? && r.rank.options == f.rank.options + RankOptions(env)
  {
    var o := OptionLists(c, env);
    f.(traditions := f.traditions.(options := o.traditions),
       rank := f.rank.(options := f.rank.options + RankOptions(env)),
       rarity := f.rarity.(options := o.rarity),
       defense := f.defense.(options := o.defense),
       traits := f.traits.(options := o.traits),
       source := f.source.(options := o.source),
       category := f.category.(options := o.category),
       timefilter := f.timefilter.(options := o.timefilter))
  }

  /** A second load of the same tab, as a forced re-initialisation runs it, lists every
      rank twice. */
  lemma RankOptionsDuplicated(f: BrowserFilter, c: Collected, env: Env)
    requires f.SpellFilters? && f.rank.options == []
    ensures var twice := WithOptionsAsWritten(WithOptionsAsWritten(f, c, env), c, env);
      |twice.rank.options| == 20 && twice.rank.options[0] == twice.rank.options[10]
  {
  }

  /** Assigns the option lists; the rank chips are exactly the ten ranks. */
  function WithOptions(f: BrowserFilter, c: Collected, env: Env): (r: BrowserFilter)
    requires f.SpellFilters?
    ensures r.SpellFilters? && r.rank.options == RankOptions(env)
  {
    var o := OptionLists(c, env);
    f.(traditions := f.traditions.(options := o.traditions),
       rank := f.rank.(options := RankOptions(env)),
       rarity := f.rarity.(options := o.rarity),
       defense := f.defense.(options := o.defense),
       traits := f.traits.(options := o.traits),
       source := f.source.(options := o.source),
       category := f.category.(options := o.category),
       timefilter := f.timefilter.(options := o.timefilter))
  }

  /** Loading again yields the same options, and the selections are kept. */
  lemma WithOptionsIdempotent(f: BrowserFilter, c: Collected, env: Env)
    requires f.SpellFilters?
    ensures WithOptions(WithOptions(f, c, env), c, env) == WithOptions(f, c, env)
    ensures var r := WithOptions(f, c, env);
      && r.order == f.order && r.search == f.search && r.traits.selected == f.traits.selected
      && r.rank.selected == f.rank.selected && r.category.selected == f.category.selected
      && r.timefilter.selected == f.timefilter.selected && r.source.selected == f.source.selected
    ensures var r := WithOptions(f, c, env); var o := OptionLists(c, env);
      && r.traditions.options == o.traditions
      && r.rarity.options == o.rarity
      && r.defense.options == o.defense
      && r.traits.options == o.traits
      && r.source.options == o.source
      && r.category.options == o.category
      && r.timefilter.options == o.timefilter
  {
  }

  /** The trait options leave out the magic traditions, which have their own chips. */
  lemma TraitOptionsOmitTraditions(c: Collected, env: Env)
    ensures forall i | 0 <= i < |OptionLists(c, env).traits| :: OptionLists(c, env).traits[i].value !in env.magicTraditions
  {
    var table := Omit(env.config("spellTraits"), env.magicTraditions);
    GenerateOptionsValues(table, None, env);
    forall i | 0 <= i < |OptionLists(c, env).traits| ensures OptionLists(c, env).traits[i].value !in env.magicTraditions {
      var o := OptionLists(c, env).traits[i];
      assert o in GenerateOptions(table, None, env);
      var j :| 0 <= j < |table| && o.value == OptionValue(None, table[j].0);
      assert table[j] in table;
    }
  }

  // ---- defaults -------------------------------------------------------------------------

  /** `prepareFilterData`. */
  function Defaults(env: Env): (f: BrowserFilter)
    ensures f.SpellFilters?
    ensures f.order.sortBy == "rank" && f.order.direction == Asc && f.order.sortBy in f.order.options
    ensures f.timefilter.selected == "" && f.traditions.optionPrefix == Some("tradition")
  {
    SpellFilters(
      OrderData("rank", Asc,
        map["name" := OrderOption("Name", Alpha), "rank" := OrderOption("PF2E.Item.Spell.Rank.Label", Numeric)],
        Numeric),
      SearchData(""),
      TraitData(And, [], []),
      ChipsData(And, true, "PF2E.CompendiumBrowser.Filter.Categories", [], None, [], Some(true)),
      ChipsData(Or, true, "PF2E.Item.Spell.Rank.Plural", [], None, [], None),
      ChipsData(Or, false, "PF2E.CompendiumBrowser.Filter.Rarities", [], None, [], None),
      ChipsData(Or, false, "PF2E.Item.Spell.Defense.Label", [], None, [], Some(true)),
      ChipsData(And, true, "PF2E.CompendiumBrowser.Filter.Traditions", [], Some("tradition"), [], Some(true)),
      SelectData("PF2E.CompendiumBrowser.Filter.CastingTime", [], Some("time"), ""),
      CheckboxData(false, "PF2E.CompendiumBrowser.Filter.Source", [], None, []))
  }

  /** The default filter selects nothing, so it compiles to an empty conjunction. */
  lemma DefaultsArePristine(env: Env)
    ensures Compiler.Pristine(Defaults(env)) && Compiler.Statements(Defaults(env)) == []
  {
    Compiler.PristineIffEmpty(Defaults(env));
  }
}
