/** The entries a browser tab indexes, the field check every tab applies to a compendium
    record, and the load loop that turns the records of the loaded packs into entries. */
module Records {
  import opened Wrappers
  import opened Strings

  /** `${v}` of a string field that may be missing. */
  function ShowString(v: JsValue<string>): (r: string)
    ensures v.Val? ==> r == v.value
  {
    match v
    case Undefined => "undefined"
    case Null => "null"
    case Val(s) => s
  }

  /** `${v}` of an integer field that may be missing. */
  function ShowInt(v: JsValue<int>): (r: string)
    ensures v.Val? ==> r == IntToString(v.value)
  {
    match v
    case Undefined => "undefined"
    case Null => "null"
    case Val(n) => IntToString(n)
  }

  /** The number a field contributes to a subtraction: `null` counts as 0 and `undefined`
      makes the difference `NaN`, written `None`. */
  function NumericValue(v: JsValue<int>): (r: Option<int>)
    ensures r.None? <==> v.Undefined?
  {
    match v
    case Undefined => None
    case Null => Some(0)
    case Val(n) => Some(n)
  }

  /** One row of a tab's index. `price` is the copper value of the coins an equipment
      entry stores; the numeric fields a tab does not fill are `Undefined`. */
  datatype IndexEntry = IndexEntry(
    name: string,
    originalName: JsValue<string>,
    img: JsValue<string>,
    uuid: string,
    level: JsValue<int>,
    rank: JsValue<int>,
    price: JsValue<int>,
    rarity: JsValue<string>,
    actionGlyph: JsValue<string>,
    domains: set<string>)

  /** An entry with the fields every tab fills and the numeric ones left out. */
  function BaseEntry(name: string, originalName: JsValue<string>, img: JsValue<string>, uuid: string,
                     rarity: JsValue<string>, domains: set<string>): (r: IndexEntry)
    ensures r.level.Undefined? && r.rank.Undefined? && r.price.Undefined? && r.actionGlyph.Undefined?
    ensures r.name == name && r.uuid == uuid && r.domains == domains && r.rarity == rarity
  {
    IndexEntry(name, originalName, img, uuid, Undefined, Undefined, Undefined, rarity, Undefined, domains)
  }

  // ---- the field check --------------------------------------------------------------

  /** The unanchored pattern `\.(?:source|publication)`: such fields never make a record
      fail the check. */
  predicate Exempt(field: string) {
    Contains(field, ".source") || Contains(field, ".publication")
  }

  /** Whether every field of `fields` is defined on a record, where `defined` tells the
      dotted paths whose value is not `undefined`; exempt fields may be missing. */
  function HasAllIndexFields(defined: string -> bool, fields: seq<string>): (r: bool)
    ensures r <==> forall i | 0 <= i < |fields| :: defined(fields[i]) || Exempt(fields[i])
  {
    if fields == [] then true
    else (defined(fields[0]) || Exempt(fields[0])) && HasAllIndexFields(defined, fields[1..])
  }

  /** Checking two lists joined is checking each of them. */
  lemma {:induction false} HasAllAppend(defined: string -> bool, u: seq<string>, v: seq<string>)
    ensures HasAllIndexFields(defined, u + v) == (HasAllIndexFields(defined, u) && HasAllIndexFields(defined, v))
    decreases |u|
  {
    if u != [] {
      assert (u + v)[0] == u[0] && (u + v)[1..] == u[1..] + v;
      HasAllAppend(defined, u[1..], v);
    } else {
      assert u + v == v;
    }
  }

  /** The check fails exactly when some field is missing and not exempt. */
  lemma HasAllIndexFieldsFails(defined: string -> bool, fields: seq<string>)
    ensures !HasAllIndexFields(defined, fields)
        <==> exists i | 0 <= i < |fields| :: !defined(fields[i]) && !Exempt(fields[i])
  {
  }

  /** The source and publication paths the tabs list are all exempt. */
  lemma ExemptPath(field: string, before: string, infix: string, after: string)
    requires infix == ".source" || infix == ".publication"
    requires field == before + infix + after
    ensures Exempt(field)
  {
    ContainsInfix(before, infix, after);
  }

  lemma SystemPathsExempt()
    ensures Exempt("system.publication") && Exempt("system.source")
  {
    ExemptPath("system.publication", "system", ".publication", "");
    ExemptPath("system.source", "system", ".source", "");
  }

  lemma DetailsPathsExempt()
    ensures Exempt("system.details.publication") && Exempt("system.details.source")
  {
    ExemptPath("system.details.publication", "system.details", ".publication", "");
    ExemptPath("system.details.source", "system.details", ".source", "");
  }

  lemma DetailsFieldPathsExempt()
    ensures Exempt("system.details.publication.title") && Exempt("system.details.source.value")
  {
    ExemptPath("system.details.publication.title", "system.details", ".publication", ".title");
    ExemptPath("system.details.source.value", "system.details", ".source", ".value");
  }

  lemma SourcePathsExempt()
    ensures Exempt("system.publication") && Exempt("system.source")
    ensures Exempt("system.details.publication") && Exempt("system.details.source")
    ensures Exempt("system.details.publication.title") && Exempt("system.details.source.value")
  {
    SystemPathsExempt();
    DetailsPathsExempt();
    DetailsFieldPathsExempt();
  }

  /** Dropping exempt fields from the list does not change the verdict. */
  lemma ExemptFieldsIrrelevant(defined: string -> bool, fields: seq<string>, extra: seq<string>)
    requires forall i | 0 <= i < |extra| :: Exempt(extra[i])
    ensures HasAllIndexFields(defined, fields + extra) == HasAllIndexFields(defined, fields)
  {
    var all := fields + extra;
    if HasAllIndexFields(defined, fields) {
      forall i | 0 <= i < |all| ensures defined(all[i]) || Exempt(all[i]) {
        if i >= |fields| { assert all[i] == extra[i - |fields|]; }
      }
    } else {
      var i :| 0 <= i < |fields| && !defined(fields[i]) && !Exempt(fields[i]);
      assert all[i] == fields[i];
    }
  }

  /** The publication title, else the source value, else the empty string:
      `publication?.title ?? source?.value ?? ""`. */
  function PubSource(title: JsValue<string>, sourceValue: JsValue<string>): (r: string)
    ensures title.Val? ==> r == title.value
    ensures !title.Val? && sourceValue.Val? ==> r == sourceValue.value
    ensures !title.Val? && !sourceValue.Val? ==> r == ""
  {
    title.Or(sourceValue.Or(""))
  }

  /** The domain tags of an entry, written as (family, value) pairs: each pair becomes
      the tag `family:value`. */
  function Tags(ps: seq<(string, string)>): set<string> {
    set i | 0 <= i < |ps| :: Tag(ps[i].0, ps[i].1)
  }

  /** Every family is colon-free. */
  predicate ColonFree(ps: seq<(string, string)>) {
    forall i | 0 <= i < |ps| :: NoColon(ps[i].0)
  }

  lemma ColonFreeAppend(a: seq<(string, string)>, b: seq<(string, string)>)
    requires ColonFree(a) && ColonFree(b)
    ensures ColonFree(a + b)
  {
    forall i | 0 <= i < |a + b| ensures NoColon((a + b)[i].0) {
      if i >= |a| { assert (a + b)[i] == b[i - |a|]; }
    }
  }

  /** A pair is in four lists joined exactly when it is in one of them. */
  lemma InFour(a: seq<(string, string)>, b: seq<(string, string)>, c: seq<(string, string)>,
               d: seq<(string, string)>, x: (string, string))
    ensures x in a + b + c + d <==> x in a || x in b || x in c || x in d
  {
  }

  /** A pair absent from three of four joined lists is in the join exactly when it is in
      the remaining one. */
  lemma InSecondOnly(a: seq<(string, string)>, b: seq<(string, string)>, c: seq<(string, string)>,
                     d: seq<(string, string)>, x: (string, string))
    requires x !in a && x !in c && x !in d
    ensures x in a + b + c + d <==> x in b
  {
    InFour(a, b, c, d, x);
  }

  /** With colon-free families, a tag is present exactly when its pair is listed. */
  lemma TagsMember(ps: seq<(string, string)>, p: string, x: string)
    requires ColonFree(ps) && NoColon(p)
    ensures Tag(p, x) in Tags(ps) <==> (p, x) in ps
  {
    if Tag(p, x) in Tags(ps) {
      var i :| 0 <= i < |ps| && Tag(p, x) == Tag(ps[i].0, ps[i].1);
      TagInjective(p, x, ps[i].0, ps[i].1);
    }
    if (p, x) in ps {
      var i :| 0 <= i < |ps| && ps[i] == (p, x);
      assert Tag(ps[i].0, ps[i].1) in Tags(ps);
    }
  }

  /** The source pair: there is one exactly when the publication string is not empty. */
  function SourcePairs(pub: string, slug: string -> string): (r: seq<(string, string)>)
    ensures |r| <= 1
    ensures r == [] <==> pub == ""
    ensures forall x :: ("source", x) in r <==> pub != "" && x == slug(pub)
  {
    if pub != "" then [("source", slug(pub))] else []
  }

  lemma SourcePairsColonFree(pub: string, slug: string -> string)
    ensures ColonFree(SourcePairs(pub, slug))
  {
    assert NoColon("source");
  }

  /** One pair of the family `p` for each value. */
  function Pairs(p: string, values: seq<string>): (r: seq<(string, string)>)
    ensures |r| == |values|
    ensures forall i | 0 <= i < |r| :: r[i] == (p, values[i])
  {
    seq(|values|, i requires 0 <= i < |values| => (p, values[i]))
  }

  lemma PairsMember(p: string, values: seq<string>, q: string, x: string)
    ensures (q, x) in Pairs(p, values) <==> q == p && x in values
  {
    if q == p && x in values {
      var i :| 0 <= i < |values| && values[i] == x;
      assert Pairs(p, values)[i] == (q, x);
    }
  }

  lemma PairsColonFree(p: string, values: seq<string>)
    requires NoColon(p)
    ensures ColonFree(Pairs(p, values))
  {
  }

  /** `t.replace(/^hb_/, "")` on every trait. */
  function StripAll(traits: seq<string>): (r: seq<string>)
    ensures |r| == |traits|
    ensures forall i | 0 <= i < |r| :: r[i] == StripHomebrew(traits[i])
  {
    seq(|traits|, i requires 0 <= i < |traits| => StripHomebrew(traits[i]))
  }

  /** `trait:<t>` for each trait, with or without the leading `hb_` removed. */
  function TraitPairs(traits: seq<string>, stripHomebrew: bool): seq<(string, string)> {
    Pairs("trait", if stripHomebrew then StripAll(traits) else traits)
  }

  /** The trait pairs are exactly the (stripped) traits. */
  lemma TraitPairsMember(traits: seq<string>, stripHomebrew: bool, q: string, x: string)
    ensures (q, x) in TraitPairs(traits, stripHomebrew) <==>
      q == "trait" && x in (if stripHomebrew then StripAll(traits) else traits)
  {
    PairsMember("trait", if stripHomebrew then StripAll(traits) else traits, q, x);
  }

  lemma TraitPairsColonFree(traits: seq<string>, stripHomebrew: bool)
    ensures ColonFree(TraitPairs(traits, stripHomebrew))
  {
    assert NoColon("trait");
    PairsColonFree("trait", if stripHomebrew then StripAll(traits) else traits);
  }

  // ---- the load loop ----------------------------------------------------------------

  /** What a tab makes of one record: not its document type (ignored), missing a field
      (skipped with a warning), an entry with the publication string it found and, for
      spells, the normalised casting time, or an exception that aborts the load. */
  datatype Built =
    | Ignored
    | Skipped
    | Indexed(entry: IndexEntry, publication: Option<string>, time: Option<string>)
    | Thrown

  /** A compendium and the index records the pack loader yields for it. */
  datatype Pack<R> = Pack(collection: string, index: seq<R>)

  /** The state of a load: the entries in discovery order and the two insertion-ordered
      sets the tabs fill beside them. */
  datatype Collected = Collected(entries: seq<IndexEntry>, publications: seq<string>, times: seq<string>)

  predicate NoDuplicates<T(==)>(s: seq<T>) {
    forall i, j | 0 <= i < j < |s| :: s[i] != s[j]
  }

  /** `set.add(x)` on an insertion-ordered set. */
  function AddUnique(s: seq<string>, x: string): (r: seq<string>)
    ensures NoDuplicates(s) ==> NoDuplicates(r)
    ensures forall y :: y in r <==> y in s || y == x
  {
    if x in s then s else s + [x]
  }

  function AddOption(s: seq<string>, x: Option<string>): (r: seq<string>)
    ensures NoDuplicates(s) ==> NoDuplicates(r)
    ensures forall y :: y in r <==> y in s || x == Some(y)
  {
    if x.Some? then AddUnique(s, x.value) else s
  }

  /** The records of all packs, pack by pack. */
  function Flatten<R>(packs: seq<Pack<R>>): seq<R>
    decreases |packs|
  {
    if packs == [] then [] else Flatten(packs[..|packs| - 1]) + packs[|packs| - 1].index
  }

  /** Folds one built record into the load state; an exception ends the load. */
  function Step(c: Collected, b: Built): Option<Collected> {
    match b
    case Ignored => Some(c)
    case Skipped => Some(c)
    case Thrown => None
    case Indexed(e, pub, time) =>
      Some(Collected(c.entries + [e], AddOption(c.publications, pub), AddOption(c.times, time)))
  }

  /** The load state after the records `rs`, or `None` when one of them threw. */
  function CollectAll<R>(rs: seq<R>, build: R -> Built): Option<Collected>
    decreases |rs|
  {
    if rs == [] then Some(Collected([], [], []))
    else
      match CollectAll(rs[..|rs| - 1], build)
      case None => None
      case Some(c) => Step(c, build(rs[|rs| - 1]))
  }

  /** The inner loop of `loadData`: the records of one pack, after the records `before`,
      stopping at the first that throws. */
  method LoadPack<R>(before: seq<R>, index: seq<R>, acc0: Collected, build: R -> Built) returns (r: Option<Collected>)
    requires CollectAll(before, build) == Some(acc0)
    ensures r == CollectAll(before + index, build)
  {
    var acc := acc0;
    var i := 0;
    assert before + index[..i] == before;
    while i < |index|
      invariant 0 <= i <= |index|
      invariant CollectAll(before + index[..i], build) == Some(acc)
    {
      var b := build(index[i]);
      CollectSnoc(before + index[..i], index[i], build);
      assert before + index[..i + 1] == (before + index[..i]) + [index[i]];
      if b.Thrown? {
        CollectStopsAtThrow(before + index[..i + 1], before + index, build);
        return None;
      }
      acc := Step(acc, b).value;
      i := i + 1;
    }
    assert index[..i] == index;
    r := Some(acc);
  }

  /** The loop of `loadData`: every record of every pack, in order, through the tab's
      builder. */
  method LoadEntries<R>(packs: seq<Pack<R>>, build: R -> Built) returns (r: Option<Collected>)
    ensures r == CollectAll(Flatten(packs), build)
  {
    var acc := Collected([], [], []);
    var p := 0;
    while p < |packs|
      invariant 0 <= p <= |packs|
      invariant CollectAll(Flatten(packs[..p]), build) == Some(acc)
    {
      FlattenPrefix(packs, p);
      var next := LoadPack(Flatten(packs[..p]), packs[p].index, acc, build);
      if next.None? {
        CollectStopsAtThrow(Flatten(packs[..p]) + packs[p].index, Flatten(packs), build);
        return None;
      }
      acc := next.value;
      assert packs[..p + 1][..p] == packs[..p];
      p := p + 1;
    }
    assert packs[..p] == packs;
    r := Some(acc);
  }

  lemma CollectSnoc<R>(rs: seq<R>, x: R, build: R -> Built)
    ensures CollectAll(rs + [x], build)
         == if CollectAll(rs, build).None? then None else Step(CollectAll(rs, build).value, build(x))
  {
    assert (rs + [x])[..|rs + [x]| - 1] == rs;
  }

  /** A prefix of the records that throws makes the whole load throw. */
  lemma {:induction false} CollectStopsAtThrow<R>(pre: seq<R>, rs: seq<R>, build: R -> Built)
    requires CollectAll(pre, build) == None
    requires pre <= rs
    ensures CollectAll(rs, build) == None
    decreases |rs|
  {
    if |rs| > |pre| {
      assert pre <= rs[..|rs| - 1];
      CollectStopsAtThrow(pre, rs[..|rs| - 1], build);
    } else {
      assert pre == rs;
    }
  }

  /** The records of the first packs, followed by those of the next pack, start the
      records of all packs. */
  lemma {:induction false} FlattenPrefix<R>(packs: seq<Pack<R>>, p: nat)
    requires p < |packs|
    ensures Flatten(packs[..p + 1]) == Flatten(packs[..p]) + packs[p].index
    ensures Flatten(packs[..p]) + packs[p].index <= Flatten(packs)
    decreases |packs|
  {
    assert packs[..p + 1][..p] == packs[..p];
    if p + 1 < |packs| {
      var init := packs[..|packs| - 1];
      FlattenPrefix(init, p);
      assert init[..p] == packs[..p] && init[..p + 1] == packs[..p + 1];
    } else {
      assert packs[..p + 1] == packs;
    }
  }

  /** A load succeeds exactly when no record throws; its entries are exactly the entries
      built from the records, its publication and time sets exactly the strings the
      records reported, each once. */
  lemma {:induction false} CollectAllMeaning<R>(rs: seq<R>, build: R -> Built)
    ensures CollectAll(rs, build).Some? <==> forall i | 0 <= i < |rs| :: !build(rs[i]).Thrown?
    ensures CollectAll(rs, build).Some? ==>
      var c := CollectAll(rs, build).value;
      && |c.entries| <= |rs|
      && NoDuplicates(c.publications) && NoDuplicates(c.times)
      && (forall e :: e in c.entries <==> exists i | 0 <= i < |rs| :: build(rs[i]).Indexed? && build(rs[i]).entry == e)
      && (forall x :: x in c.publications <==>
            exists i | 0 <= i < |rs| :: build(rs[i]).Indexed? && build(rs[i]).publication == Some(x))
      && (forall x :: x in c.times <==>
            exists i | 0 <= i < |rs| :: build(rs[i]).Indexed? && build(rs[i]).time == Some(x))
    decreases |rs|
  {
    if rs != [] {
      var init := rs[..|rs| - 1];
      CollectAllMeaning(init, build);
      var last := build(rs[|rs| - 1]);
      assert forall i | 0 <= i < |init| :: rs[i] == init[i];
      if CollectAll(rs, build).Some? {
        var c := CollectAll(rs, build).value;
        var c0 := CollectAll(init, build).value;
        forall e ensures e in c.entries <==> exists i | 0 <= i < |rs| :: build(rs[i]).Indexed? && build(rs[i]).entry == e {
          if e in c.entries && e !in c0.entries { assert build(rs[|rs| - 1]).entry == e; }
        }
        forall x ensures x in c.publications <==>
          exists i | 0 <= i < |rs| :: build(rs[i]).Indexed? && build(rs[i]).publication == Some(x)
        {
          if x in c.publications && x !in c0.publications { assert build(rs[|rs| - 1]).publication == Some(x); }
        }
        forall x ensures x in c.times <==>
          exists i | 0 <= i < |rs| :: build(rs[i]).Indexed? && build(rs[i]).time == Some(x)
        {
          if x in c.times && x !in c0.times { assert build(rs[|rs| - 1]).time == Some(x); }
        }
      } else if CollectAll(init, build).Some? {
        assert last.Thrown?;
      }
    }
  }
}
