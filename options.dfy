/** The libraries the tabs call, as parameters, and the option lists the tabs generate
    from configuration tables. */
module Options {
  import opened Wrappers
  import opened Strings
  import opened FilterData
  import opened Documents
  import Sorting

  /** A configuration record (`CONFIG.PF2E.<name>`) as its entries in key order: each key
      with the translation key of its label (the string itself, or the `label` of an
      object). */
  type ConfigTable = seq<(string, string)>

  /** The calls into code outside the browser: `sluggify`, `game.i18n.localize`,
      `localeCompare` in the client language, the configuration records, the copper value
      of `Coins`, `Number` on a string (`None` for `NaN`), `getActionGlyph`,
      `getActionIcon("passive")`, `ordinalString`, the `MAGIC_TRADITIONS` set, and the two
      lower-casings of strings: `toLowerCase()` (which `toLocaleLowerCase("en")` agrees
      with) and `toLocaleLowerCase` in the client language, and the order in which the
      engine's `Array.prototype.sort` leaves the collected publications under the
      comparator of `generateSourceCheckboxOptions`. */
  datatype Env = Env(
    slug: string -> string,
    localize: string -> string,
    collate: (string, string) -> int,
    config: string -> ConfigTable,
    copper: PriceValue -> int,
    toNumber: string -> Option<int>,
    actionGlyph: JsValue<string> -> JsValue<string>,
    passiveIcon: string,
    ordinal: int -> string,
    magicTraditions: seq<string>,
    lower: string -> string,
    localeLower: string -> string,
    sourceOrder: seq<string> -> seq<string>)

  /** The options argument of `generateOptions`; omitting it means `{sort: true}`. */
  datatype GenerateSettings = GenerateSettings(prefix: Option<string>, sort: Option<bool>)

  predicate Sorts(settings: Option<GenerateSettings>) {
    settings.None? || settings.value.sort == Some(true)
  }

  function PrefixSetting(settings: Option<GenerateSettings>): Option<string> {
    if settings.Some? then settings.value.prefix else None
  }

  /** `prefix ? `${prefix}:${value}` : value`. */
  function OptionValue(prefix: Option<string>, value: string): (r: string)
    ensures prefix.Some? && prefix.value != "" ==> r == Tag(prefix.value, value)
    ensures prefix.None? || prefix.value == "" ==> r == value
  {
    if prefix.Some? && prefix.value != "" then Tag(prefix.value, value) else value
  }

  /** The comparator `(a, b) => a.label.localeCompare(b.label)`. */
  function ByLabel(collate: (string, string) -> int): (LabeledValue, LabeledValue) -> int {
    (a: LabeledValue, b: LabeledValue) => collate(a.title, b.title)
  }

  function LocalizedOptions(table: ConfigTable, prefix: Option<string>, localize: string -> string): (r: seq<LabeledValue>)
    ensures |r| == |table|
  {
    seq(|table|, i requires 0 <= i < |table| => LabeledValue(localize(table[i].1), OptionValue(prefix, table[i].0)))
  }

  /** `generateOptions` and `generateMultiselectOptions`: one option per entry, labelled
      with the localised label, valued with the (prefixed) key, sorted by label when asked. */
  function GenerateOptions(table: ConfigTable, settings: Option<GenerateSettings>, env: Env): (r: seq<LabeledValue>)
    ensures |r| == |table|
  {
    var options := LocalizedOptions(table, PrefixSetting(settings), env.localize);
    if Sorts(settings) then Sorting.InsertionSort(options, ByLabel(env.collate)) else options
  }

  /** What the generated list holds: without sorting, entry `i` of the table in place `i`;
      with sorting, the same options rearranged into label order when the collation is a
      total preorder. */
  lemma GenerateOptionsSpec(table: ConfigTable, settings: Option<GenerateSettings>, env: Env)
    ensures var r := GenerateOptions(table, settings, env);
      !Sorts(settings) ==> forall i | 0 <= i < |table| ::
        r[i].title == env.localize(table[i].1) && r[i].value == OptionValue(PrefixSetting(settings), table[i].0)
    ensures multiset(GenerateOptions(table, settings, env)) == multiset(LocalizedOptions(table, PrefixSetting(settings), env.localize))
    ensures Sorts(settings) && Sorting.TotalPreorderOn((s: string) => true, env.collate) ==>
      Sorting.Sorted(GenerateOptions(table, settings, env), ByLabel(env.collate))
  {
    var options := LocalizedOptions(table, PrefixSetting(settings), env.localize);
    var cmp := ByLabel(env.collate);
    if Sorts(settings) {
      Sorting.SortPermutes(options, cmp);
      if Sorting.TotalPreorderOn((s: string) => true, env.collate) {
        var dom := (o: LabeledValue) => true;
        assert Sorting.TotalPreorderOn(dom, cmp) by {
          forall a, b ensures cmp(a, b) <= 0 || cmp(b, a) <= 0 {
            assert cmp(a, b) == env.collate(a.title, b.title);
            assert cmp(b, a) == env.collate(b.title, a.title);
          }
          forall a, b, c | cmp(a, b) <= 0 && cmp(b, c) <= 0 ensures cmp(a, c) <= 0 {
            assert cmp(a, b) == env.collate(a.title, b.title);
            assert cmp(b, c) == env.collate(b.title, c.title);
            assert cmp(a, c) == env.collate(a.title, c.title);
          }
        }
        Sorting.SortSorted(options, cmp, dom);
      }
    }
  }

  /** UTF-16 code-unit order is a total preorder on strings. */
  lemma CodeUnitOrder()
    ensures Sorting.TotalPreorderOn((s: string) => true, CompareCodeUnits)
  {
    forall a: string, b: string ensures CompareCodeUnits(a, b) <= 0 || CompareCodeUnits(b, a) <= 0 {
      LexLessTotal(a, b);
    }
    forall a: string, b: string, c: string | CompareCodeUnits(a, b) <= 0 && CompareCodeUnits(b, c) <= 0
      ensures CompareCodeUnits(a, c) <= 0
    {
      if a != b && b != c { LexLessTransitive(a, b, c); }
    }
  }

  /** Every generated option is valued with a (prefixed) key of the table. */
  lemma GenerateOptionsValues(table: ConfigTable, settings: Option<GenerateSettings>, env: Env)
    ensures forall o | o in GenerateOptions(table, settings, env) ::
      exists i | 0 <= i < |table| :: o.value == OptionValue(PrefixSetting(settings), table[i].0)
  {
    GenerateOptionsSpec(table, settings, env);
    var options := LocalizedOptions(table, PrefixSetting(settings), env.localize);
    forall o | o in GenerateOptions(table, settings, env)
      ensures exists i | 0 <= i < |table| :: o.value == OptionValue(PrefixSetting(settings), table[i].0)
    {
      assert o in multiset(options);
      var i :| 0 <= i < |options| && options[i] == o;
    }
  }

  /** `generateSourceCheckboxOptions`: the collected publications in the order the
      engine's sort leaves them, each labelled with itself and valued with its source tag.
      The comparator destructures the first two characters of one argument and ignores the
      other, so it is no consistent comparator and the order is the engine's own
      (`env.sourceOrder`). */
  function SourceCheckboxOptions(sources: seq<string>, env: Env): (r: seq<LabeledValue>)
    ensures |r| == |env.sourceOrder(sources)|
    ensures forall i | 0 <= i < |r| :: r[i].title == env.sourceOrder(sources)[i]
    ensures forall i | 0 <= i < |r| :: r[i].value == Tag("source", env.slug(r[i].title))
  {
    var sorted := env.sourceOrder(sources);
    seq(|sorted|, i requires 0 <= i < |sorted| => LabeledValue(sorted[i], Tag("source", env.slug(sorted[i]))))
  }

  /** Whatever order the engine picks, a sort rearranges the publications; then there is
      one option per publication, each publication has its option, and every option is
      valued with its own publication's tag. */
  lemma SourceCheckboxOptionsContents(sources: seq<string>, env: Env)
    requires multiset(env.sourceOrder(sources)) == multiset(sources)
    ensures var r := SourceCheckboxOptions(sources, env);
      && |r| == |sources|
      && (forall s :: s in sources <==> LabeledValue(s, Tag("source", env.slug(s))) in r)
      && (forall o | o in r :: o.title in sources && o.value == Tag("source", env.slug(o.title)))
  {
    var sorted := env.sourceOrder(sources);
    var r := SourceCheckboxOptions(sources, env);
    assert |sorted| == |multiset(sorted)| == |multiset(sources)| == |sources|;
    forall s ensures s in sources <==> LabeledValue(s, Tag("source", env.slug(s))) in r {
      if s in sources {
        assert s in multiset(sorted);
        var i :| 0 <= i < |sorted| && sorted[i] == s;
        assert r[i] == LabeledValue(s, Tag("source", env.slug(s)));
      }
      if LabeledValue(s, Tag("source", env.slug(s))) in r {
        var i :| 0 <= i < |r| && r[i] == LabeledValue(s, Tag("source", env.slug(s)));
        assert sorted[i] in multiset(sources);
      }
    }
    forall o | o in r ensures o.title in sources && o.value == Tag("source", env.slug(o.title)) {
      var i :| 0 <= i < |r| && r[i] == o;
      assert sorted[i] in multiset(sources);
    }
  }

  // ---- configuration records --------------------------------------------------------

  predicate HasKey(table: ConfigTable, k: string) {
    exists i | 0 <= i < |table| :: table[i].0 == k
  }

  /** The label of the first entry with key `k`. */
  function Lookup(table: ConfigTable, k: string): (r: Option<string>)
    ensures r.Some? <==> HasKey(table, k)
    ensures r.Some? ==> (k, r.value) in table
  {
    if table == [] then None
    else if table[0].0 == k then Some(table[0].1)
    else Lookup(table[1..], k)
  }

  /** `R.pick(table, keys)`: the entries for the listed keys that the table has, in the
      order of the key list. */
  function Pick(table: ConfigTable, keys: seq<string>): (r: ConfigTable)
    ensures forall e | e in r :: e.0 in keys && e in table
  {
    if keys == [] then []
    else match Lookup(table, keys[0])
      case None => Pick(table, keys[1..])
      case Some(l) => [(keys[0], l)] + Pick(table, keys[1..])
  }

  /** Every listed key the table has is picked. */
  lemma {:induction false} PickHas(table: ConfigTable, keys: seq<string>, k: string)
    requires k in keys && HasKey(table, k)
    ensures HasKey(Pick(table, keys), k)
    decreases |keys|
  {
    var rest := Pick(table, keys[1..]);
    if keys[0] == k {
      assert Pick(table, keys)[0].0 == k;
    } else {
      PickHas(table, keys[1..], k);
      var i :| 0 <= i < |rest| && rest[i].0 == k;
      if Lookup(table, keys[0]).Some? {
        assert Pick(table, keys) == [(keys[0], Lookup(table, keys[0]).value)] + rest;
        assert Pick(table, keys)[i + 1].0 == k;
      }
    }
  }

  /** `R.omit(table, keys)`: the table without the listed keys, in table order. */
  function Omit(table: ConfigTable, keys: seq<string>): (r: ConfigTable)
    ensures forall e | e in r :: e.0 !in keys && e in table
    ensures forall i | 0 <= i < |table| && table[i].0 !in keys :: table[i] in r
  {
    if table == [] then []
    else (if table[0].0 in keys then [] else [table[0]]) + Omit(table[1..], keys)
  }

  /** `{...a, ...b}`: the keys of `a` in place with the labels of `b` where `b` has them,
      then the keys only `b` has. */
  function Merge(a: ConfigTable, b: ConfigTable): (r: ConfigTable)
    ensures forall k :: HasKey(r, k) <==> HasKey(a, k) || HasKey(b, k)
    ensures forall k | HasKey(b, k) :: Lookup(r, k) == Lookup(b, k)
  {
    var kept := seq(|a|, i requires 0 <= i < |a| => (a[i].0, Lookup(b, a[i].0).GetOr(a[i].1)));
    var added := OmitKeysOf(b, a);
    MergeParts(a, b, kept, added);
    kept + added
  }

  function OmitKeysOf(b: ConfigTable, a: ConfigTable): (r: ConfigTable)
    ensures forall e | e in r :: e in b && !HasKey(a, e.0)
    ensures forall i | 0 <= i < |b| && !HasKey(a, b[i].0) :: b[i] in r
  {
    if b == [] then []
    else (if HasKey(a, b[0].0) then [] else [b[0]]) + OmitKeysOf(b[1..], a)
  }

  lemma {:induction false} LookupAppend(x: ConfigTable, y: ConfigTable, k: string)
    ensures Lookup(x + y, k) == if HasKey(x, k) then Lookup(x, k) else Lookup(y, k)
    decreases |x|
  {
    if x == [] {
      assert x + y == y;
    } else {
      assert (x + y)[0] == x[0];
      assert (x + y)[1..] == x[1..] + y;
      LookupAppend(x[1..], y, k);
      if x[0].0 != k {
        assert HasKey(x, k) <==> HasKey(x[1..], k) by {
          if HasKey(x, k) {
            var i :| 0 <= i < |x| && x[i].0 == k;
            assert x[1..][i - 1].0 == k;
          }
          if HasKey(x[1..], k) {
            var i :| 0 <= i < |x[1..]| && x[1..][i].0 == k;
            assert x[i + 1].0 == k;
          }
        }
      }
    }
  }

  lemma LookupHit(t: ConfigTable, i: nat, k: string)
    requires i < |t| && t[i].0 == k
    ensures HasKey(t, k)
  {
  }

  lemma HasKeyAppend(x: ConfigTable, y: ConfigTable, k: string)
    ensures HasKey(x + y, k) <==> HasKey(x, k) || HasKey(y, k)
  {
    if HasKey(x + y, k) {
      var i :| 0 <= i < |x + y| && (x + y)[i].0 == k;
      if i >= |x| { assert y[i - |x|].0 == k; }
    }
    if HasKey(x, k) {
      var i :| 0 <= i < |x| && x[i].0 == k;
      assert (x + y)[i].0 == k;
    }
    if HasKey(y, k) {
      var i :| 0 <= i < |y| && y[i].0 == k;
      assert (x + y)[|x| + i].0 == k;
    }
  }

  lemma AddedKeys(b: ConfigTable, a: ConfigTable, k: string)
    ensures HasKey(OmitKeysOf(b, a), k) <==> HasKey(b, k) && !HasKey(a, k)
  {
    var added := OmitKeysOf(b, a);
    if HasKey(added, k) {
      var i :| 0 <= i < |added| && added[i].0 == k;
      assert added[i] in added;
      var j :| 0 <= j < |b| && b[j] == added[i];
    }
    if HasKey(b, k) && !HasKey(a, k) {
      var j :| 0 <= j < |b| && b[j].0 == k;
      assert b[j] in added;
      var m :| 0 <= m < |added| && added[m] == b[j];
    }
  }

  lemma MergeParts(a: ConfigTable, b: ConfigTable, kept: ConfigTable, added: ConfigTable)
    requires kept == seq(|a|, i requires 0 <= i < |a| => (a[i].0, Lookup(b, a[i].0).GetOr(a[i].1)))
    requires added == OmitKeysOf(b, a)
    ensures forall k :: HasKey(kept + added, k) <==> HasKey(a, k) || HasKey(b, k)
    ensures forall k | HasKey(b, k) :: Lookup(kept + added, k) == Lookup(b, k)
  {
    forall k ensures HasKey(kept + added, k) <==> HasKey(a, k) || HasKey(b, k) {
      HasKeyAppend(kept, added, k);
      KeptKeys(a, b, kept, k);
      AddedKeys(b, a, k);
    }
    forall k | HasKey(b, k) ensures Lookup(kept + added, k) == Lookup(b, k) {
      LookupAppend(kept, added, k);
      if HasKey(kept, k) {
        KeptLookup(a, b, kept, k);
      } else {
        KeptKeys(a, b, kept, k);
        AddedLookup(b, a, k);
      }
    }
  }

  lemma KeptKeys(a: ConfigTable, b: ConfigTable, kept: ConfigTable, k: string)
    requires kept == seq(|a|, i requires 0 <= i < |a| => (a[i].0, Lookup(b, a[i].0).GetOr(a[i].1)))
    ensures HasKey(kept, k) <==> HasKey(a, k)
  {
    if HasKey(a, k) {
      var i :| 0 <= i < |a| && a[i].0 == k;
      assert kept[i].0 == k;
    }
    if HasKey(kept, k) {
      var i :| 0 <= i < |kept| && kept[i].0 == k;
      assert a[i].0 == k;
    }
  }

  lemma KeptLookup(a: ConfigTable, b: ConfigTable, kept: ConfigTable, k: string)
    requires kept == seq(|a|, i requires 0 <= i < |a| => (a[i].0, Lookup(b, a[i].0).GetOr(a[i].1)))
    requires HasKey(kept, k) && HasKey(b, k)
    ensures Lookup(kept, k) == Lookup(b, k)
    decreases |a|
  {
    if kept[0].0 != k {
      var kept' := seq(|a| - 1, i requires 0 <= i < |a| - 1 => (a[1..][i].0, Lookup(b, a[1..][i].0).GetOr(a[1..][i].1)));
      assert kept[1..] == kept';
      var i :| 0 <= i < |kept| && kept[i].0 == k;
      assert kept'[i - 1].0 == k;
      KeptLookup(a[1..], b, kept', k);
    }
  }

  lemma {:induction false} AddedLookup(b: ConfigTable, a: ConfigTable, k: string)
    requires HasKey(b, k) && !HasKey(a, k)
    ensures Lookup(OmitKeysOf(b, a), k) == Lookup(b, k)
    decreases |b|
  {
    var rest := OmitKeysOf(b[1..], a);
    if b[0].0 == k {
      assert OmitKeysOf(b, a) == [b[0]] + rest;
    } else {
      var j :| 0 <= j < |b| && b[j].0 == k;
      assert b[1..][j - 1].0 == k;
      AddedLookup(b[1..], a, k);
      if HasKey(a, b[0].0) {
        assert OmitKeysOf(b, a) == rest;
      } else {
        assert OmitKeysOf(b, a) == [b[0]] + rest;
        assert ([b[0]] + rest)[1..] == rest;
      }
    }
  }

  // ---- range inputs -------------------------------------------------------------------

  /** The base `parseRangeFilterInput`: `Number(x) || 0` on both bounds, with the raw input
      strings kept. */
  function ParseRangeFilterInput(name: string, lower: string, upper: string, env: Env): (r: RangeValues)
    ensures r.inputMin == lower && r.inputMax == upper
    ensures env.toNumber(lower).None? ==> r.min == 0
    ensures env.toNumber(lower).Some? ==> r.min == env.toNumber(lower).value
    ensures env.toNumber(upper).None? ==> r.max == 0
    ensures env.toNumber(upper).Some? ==> r.max == env.toNumber(upper).value
  {
    RangeValues(env.toNumber(lower).GetOr(0), env.toNumber(upper).GetOr(0), lower, upper)
  }
}
