/** The damage helpers: stepping a damage die up or down the die-size scale, the
    damage-type to category table, the flavor search and crit marking over roll-term
    trees, and the `d20` rule of the damage-formula check. The scale and the table
    themselves live in the damage values module, which is not part of this model; they
    are parameters here. */
module Damage {
  import opened Wrappers
  import opened Strings

  // ---------------------------------------------------------------------------
  // nextDamageDieSize

  /** `indexOf`: the first position of `x`, or -1. */
  function IndexOf(s: seq<string>, x: string): (r: int)
    ensures -1 <= r < |s|
    ensures r == -1 <==> x !in s
    ensures r >= 0 ==> s[r] == x && forall j | 0 <= j < r :: s[j] != x
  {
    if s == [] then -1
    else if s[0] == x then 0
    else
      var k := IndexOf(s[1..], x);
      if k == -1 then -1 else k + 1
  }

  /** `nextDamageDieSize` over the die-size scale `faces`: the size one step up (or down)
      the scale, the size itself when there is no such step. */
  function NextDamageDieSize(faces: seq<string>, size: string, upgrade: bool): (r: string)
    ensures size in faces ==>
      var i := IndexOf(faces, size);
      r == (if upgrade && i + 1 < |faces| then faces[i + 1] else if !upgrade && i > 0 then faces[i - 1] else size)
    ensures size !in faces ==> r == (if upgrade && |faces| > 0 then faces[0] else size)
  {
    var i := IndexOf(faces, size) + (if upgrade then 1 else -1);
    if 0 <= i < |faces| then faces[i] else size
  }

  /** No two sizes of the scale are the same. */
  predicate Distinct(s: seq<string>) {
    forall i, j | 0 <= i < j < |s| :: s[i] != s[j]
  }

  lemma IndexOfDistinct(s: seq<string>, i: int)
    requires Distinct(s) && 0 <= i < |s|
    ensures IndexOf(s, s[i]) == i
  {
    var k := IndexOf(s, s[i]);
    assert s[k] == s[i];
  }

  /** On a scale without repeats, stepping a size up and then down again gives it back,
      unless it is already the largest; the same holds down and then up, unless it is the
      smallest. */
  lemma UpgradeThenDowngrade(faces: seq<string>, i: int)
    requires Distinct(faces) && 0 <= i < |faces|
    ensures i + 1 < |faces| ==> NextDamageDieSize(faces, NextDamageDieSize(faces, faces[i], true), false) == faces[i]
    ensures i > 0 ==> NextDamageDieSize(faces, NextDamageDieSize(faces, faces[i], false), true) == faces[i]
    ensures i + 1 == |faces| ==> NextDamageDieSize(faces, faces[i], true) == faces[i]
    ensures i == 0 ==> NextDamageDieSize(faces, faces[i], false) == faces[i]
  {
    IndexOfDistinct(faces, i);
    if i + 1 < |faces| {
      IndexOfDistinct(faces, i + 1);
    }
    if i > 0 {
      IndexOfDistinct(faces, i - 1);
    }
  }

  /** Upgrading `n` times from a size of the scale reaches position `i + n`, capped at
      the largest size. */
  function UpgradeTimes(faces: seq<string>, size: string, n: nat): string
    decreases n
  {
    if n == 0 then size else NextDamageDieSize(faces, UpgradeTimes(faces, size, n - 1), true)
  }

  /** One step up from position `j` of a scale without repeats. */
  lemma StepUp(faces: seq<string>, j: int)
    requires Distinct(faces) && 0 <= j < |faces|
    ensures NextDamageDieSize(faces, faces[j], true) == if j + 1 < |faces| then faces[j + 1] else faces[j]
  {
    IndexOfDistinct(faces, j);
  }

  lemma {:induction false} UpgradeTimesCaps(faces: seq<string>, i: int, n: nat)
    requires Distinct(faces) && 0 <= i < |faces|
    ensures UpgradeTimes(faces, faces[i], n) == faces[if i + n < |faces| then i + n else |faces| - 1]
    decreases n
  {
    if n > 0 {
      UpgradeTimesCaps(faces, i, n - 1);
      var j := if i + n - 1 < |faces| then i + n - 1 else |faces| - 1;
      var prev := UpgradeTimes(faces, faces[i], n - 1);
      assert prev == faces[j];
      StepUp(faces, j);
      assert UpgradeTimes(faces, faces[i], n) == NextDamageDieSize(faces, prev, true);
    }
  }

  // ---------------------------------------------------------------------------
  // DamageCategorization

  /** The entries of the damage-type to category table, in their order; each type is
      listed once. */
  type Table = seq<(string, string)>

  predicate KeysDistinct(t: Table) {
    forall i, j | 0 <= i < j < |t| :: t[i].0 != t[j].0
  }

  /** The category filed under a type among the table's own entries, if any. */
  function OwnCategory(t: Table, damageType: string): (r: Option<string>)
    ensures r.Some? ==> (damageType, r.value) in t
    ensures r.None? ==> forall i | 0 <= i < |t| :: t[i].0 != damageType
  {
    if t == [] then None
    else if t[0].0 == damageType then Some(t[0].1)
    else OwnCategory(t[1..], damageType)
  }

  /** What `table[damageType] ?? null` gives on the plain table object: the category of an
      own entry, else the member every object inherits under that name, else `null`. */
  datatype Lookup = Found(category: string) | InheritedMember(key: string) | NullCategory

  /** `fromDamageType`: the category of a type the table files; an inherited
      `Object.prototype` member for a name such as `constructor` the table lacks; `null`
      for any other type. */
  function FromDamageType(t: Table, damageType: string): (r: Lookup)
    ensures r.Found? ==> (damageType, r.category) in t
    ensures r.Found? <==> exists i | 0 <= i < |t| :: t[i].0 == damageType
    ensures r.InheritedMember? <==> (forall i | 0 <= i < |t| :: t[i].0 != damageType) && damageType in InheritedKeys
    ensures r.InheritedMember? ==> r.key == damageType
  {
    var own := OwnCategory(t, damageType);
    if own.Some? then Found(own.value)
    else if damageType in InheritedKeys then InheritedMember(damageType)
    else NullCategory
  }

  /** A table without a `constructor` entry gives the inherited member for that name,
      and `null` only for names neither the table nor `Object.prototype` has. */
  lemma ConstructorIsInherited(t: Table, other: string)
    requires forall i | 0 <= i < |t| :: t[i].0 != "constructor" && t[i].0 != other
    requires other !in InheritedKeys
    ensures FromDamageType(t, "constructor") == InheritedMember("constructor")
    ensures FromDamageType(t, other) == NullCategory
  {
  }

  /** `Object.values` of the table, as a set: both `allCategories` and
      `baseCategories`. */
  function AllCategories(t: Table): (r: set<string>)
    ensures forall c :: c in r <==> exists i | 0 <= i < |t| :: t[i].1 == c
  {
    if t == [] then {}
    else
      var rest := AllCategories(t[1..]);
      assert forall i | 1 <= i < |t| :: t[1..][i - 1] == t[i];
      {t[0].1} + rest
  }

  function BaseCategories(t: Table): (r: set<string>)
    ensures r == AllCategories(t)
  {
    AllCategories(t)
  }

  /** `toDamageTypes`: the types filed under a category, by filtering the entries. */
  function ToDamageTypes(t: Table, category: string): (r: set<string>)
    ensures forall d :: d in r ==> exists i | 0 <= i < |t| :: t[i] == (d, category)
  {
    if t == [] then {}
    else
      var rest := ToDamageTypes(t[1..], category);
      assert forall i | 1 <= i < |t| :: t[1..][i - 1] == t[i];
      (if t[0].1 == category then {t[0].0} else {}) + rest
  }

  /** The types of a category are exactly those `fromDamageType` files under it. */
  lemma {:induction false} ToDamageTypesInverse(t: Table, category: string, damageType: string)
    requires KeysDistinct(t)
    ensures damageType in ToDamageTypes(t, category) <==> FromDamageType(t, damageType) == Found(category)
  {
    if t != [] {
      assert KeysDistinct(t[1..]) by {
        forall i, j | 0 <= i < j < |t[1..]| ensures t[1..][i].0 != t[1..][j].0 {
          assert t[1..][i] == t[i + 1] && t[1..][j] == t[j + 1];
        }
      }
      ToDamageTypesInverse(t[1..], category, damageType);
    }
  }

  /** A category has types exactly when it is one of the table's categories. */
  lemma CategoriesHaveTypes(t: Table, category: string)
    ensures category in AllCategories(t) <==> ToDamageTypes(t, category) != {}
  {
    if category in AllCategories(t) {
      var i :| 0 <= i < |t| && t[i].1 == category;
      ToDamageTypesHas(t, i);
    }
  }

  lemma {:induction false} ToDamageTypesHas(t: Table, i: int)
    requires 0 <= i < |t|
    ensures t[i].0 in ToDamageTypes(t, t[i].1)
  {
    if i > 0 {
      assert t[1..][i - 1] == t[i];
      ToDamageTypesHas(t[1..], i - 1);
    }
  }

  // ---------------------------------------------------------------------------
  // Roll terms

  /** The kinds of roll term the helpers tell apart. */
  datatype TermKind = Grouping | Arithmetic | Other

  /** The multiplier `markAsCrit` records. */
  type CritMultiplier = m: int | m == 2 || m == 3 witness 2

  /** A roll term. A grouping wraps one term and an arithmetic expression has two
      operands; any other term has no children the helpers walk into. Only the
      options' `crit` entry changes after construction. */
  class Term {
    const kind: TermKind
    const flavor: string
    const children: seq<Term>
    ghost const height: nat
    var crit: Option<CritMultiplier>

    /** The tree shape: the number of children fits the kind, and every child is lower. */
    ghost predicate Valid()
      decreases height
    {
      && |children| == (match kind case Grouping => 1 case Arithmetic => 2 case Other => 0)
      && forall i | 0 <= i < |children| :: children[i].height < height && children[i].Valid()
    }

    /** Every term of the tree, this one included. */
    ghost function Nodes(): set<Term>
      requires Valid()
      decreases height
    {
      {this} + (if kind == Other then {} else if kind == Grouping then children[0].Nodes()
                else children[0].Nodes() + children[1].Nodes())
    }

    /** A term without children. */
    constructor Leaf(flavor: string)
      ensures Valid() && Nodes() == {this}
      ensures kind == Other && this.flavor == flavor && crit == None
    {
      kind := Other;
      this.flavor := flavor;
      children := [];
      height := 0;
      crit := None;
    }

    /** A parenthesised term. */
    constructor Group(flavor: string, inner: Term)
      requires inner.Valid()
      ensures Valid() && Nodes() == {this} + inner.Nodes()
      ensures kind == Grouping && this.flavor == flavor && children == [inner] && crit == None
    {
      kind := Grouping;
      this.flavor := flavor;
      children := [inner];
      height := inner.height + 1;
      crit := None;
    }

    /** A binary arithmetic expression. */
    constructor Binary(flavor: string, left: Term, right: Term)
      requires left.Valid() && right.Valid()
      ensures Valid() && Nodes() == {this} + left.Nodes() + right.Nodes()
      ensures kind == Arithmetic && this.flavor == flavor && children == [left, right] && crit == None
    {
      kind := Arithmetic;
      this.flavor := flavor;
      children := [left, right];
      height := (if left.height < right.height then right.height else left.height) + 1;
      crit := None;
    }
  }

  /** Whether a term's comma-separated flavor list names `flavor`. */
  predicate HasFlavor(t: Term, flavor: string) {
    flavor in Split(t.flavor, ',')
  }

  /** `deepFindTerms`: the terms of the tree whose flavor list names `flavor`, the term
      before its children and the children in order. */
  function DeepFindTerms(t: Term, flavor: string): (r: seq<Term>)
    requires t.Valid()
    ensures forall x | x in r :: x in t.Nodes() && HasFlavor(x, flavor)
    decreases t.height
  {
    var own := if HasFlavor(t, flavor) then [t] else [];
    if t.kind == Other then own
    else if t.kind == Grouping then own + DeepFindTerms(t.children[0], flavor)
    else own + DeepFindTerms(t.children[0], flavor) + DeepFindTerms(t.children[1], flavor)
  }

  /** All terms of a tree in pre-order. */
  ghost function PreOrder(t: Term): (r: seq<Term>)
    requires t.Valid()
    decreases t.height
  {
    if t.kind == Other then [t]
    else if t.kind == Grouping then [t] + PreOrder(t.children[0])
    else [t] + PreOrder(t.children[0]) + PreOrder(t.children[1])
  }

  /** The terms of `s` that name `flavor`, in order. */
  ghost function Flavored(s: seq<Term>, flavor: string): seq<Term> {
    if s == [] then [] else (if HasFlavor(s[0], flavor) then [s[0]] else []) + Flavored(s[1..], flavor)
  }

  lemma {:induction false} FlavoredAppend(a: seq<Term>, b: seq<Term>, flavor: string)
    ensures Flavored(a + b, flavor) == Flavored(a, flavor) + Flavored(b, flavor)
  {
    if a == [] {
      assert a + b == b;
    } else {
      var h := if HasFlavor(a[0], flavor) then [a[0]] else [];
      assert (a + b)[0] == a[0];
      assert (a + b)[1..] == a[1..] + b;
      assert Flavored(a + b, flavor) == h + Flavored(a[1..] + b, flavor);
      FlavoredAppend(a[1..], b, flavor);
      assert Flavored(a, flavor) == h + Flavored(a[1..], flavor);
      assert h + (Flavored(a[1..], flavor) + Flavored(b, flavor)) == (h + Flavored(a[1..], flavor)) + Flavored(b, flavor);
    }
  }

  /** `deepFindTerms` is the pre-order walk of the tree filtered by flavor, and the walk
      visits every term of the tree. */
  lemma {:induction false} DeepFindTermsIsFilteredPreOrder(t: Term, flavor: string)
    requires t.Valid()
    ensures DeepFindTerms(t, flavor) == Flavored(PreOrder(t), flavor)
    ensures forall x :: x in PreOrder(t) <==> x in t.Nodes()
    decreases t.height
  {
    assert Flavored([t], flavor) == (if HasFlavor(t, flavor) then [t] else []);
    if t.kind == Grouping {
      DeepFindTermsIsFilteredPreOrder(t.children[0], flavor);
      FlavoredAppend([t], PreOrder(t.children[0]), flavor);
    } else if t.kind == Arithmetic {
      DeepFindTermsIsFilteredPreOrder(t.children[0], flavor);
      DeepFindTermsIsFilteredPreOrder(t.children[1], flavor);
      FlavoredAppend([t], PreOrder(t.children[0]), flavor);
      FlavoredAppend([t] + PreOrder(t.children[0]), PreOrder(t.children[1]), flavor);
    }
  }

  /** Every term of the tree that names the flavor is found. */
  lemma DeepFindTermsComplete(t: Term, flavor: string, x: Term)
    requires t.Valid() && x in t.Nodes() && HasFlavor(x, flavor)
    ensures x in DeepFindTerms(t, flavor)
  {
    DeepFindTermsIsFilteredPreOrder(t, flavor);
    FlavoredKeeps(PreOrder(t), flavor, x);
  }

  lemma {:induction false} FlavoredKeeps(s: seq<Term>, flavor: string, x: Term)
    requires x in s && HasFlavor(x, flavor)
    ensures x in Flavored(s, flavor)
  {
    if s[0] != x {
      FlavoredKeeps(s[1..], flavor, x);
    }
  }

  /** `markAsCrit`: the multiplier is recorded on the term, and through groupings and
      both operands of arithmetic on every term below it. Nothing but those `crit`
      entries changes. */
  method MarkAsCrit(t: Term, multiplier: CritMultiplier)
    requires t.Valid()
    requires forall x | x in t.Nodes() :: allocated(x)
    modifies t.Nodes()
    ensures forall x | x in t.Nodes() :: x.crit == Some(multiplier)
    decreases t.height
  {
    t.crit := Some(multiplier);
    if t.kind == Arithmetic {
      MarkAsCrit(t.children[0], multiplier);
      assert forall x | x in t.children[0].Nodes() :: x.crit == Some(multiplier);
      MarkAsCrit(t.children[1], multiplier);
    } else if t.kind == Grouping {
      MarkAsCrit(t.children[0], multiplier);
    }
  }

  // ---------------------------------------------------------------------------
  // looksLikeDamageFormula

  /** `looksLikeDamageFormula`: never for a formula that mentions `d20`; otherwise as the
      four formula patterns say, which `patterns` stands for. */
  function LooksLikeDamageFormula(formula: string, patterns: string -> bool): (r: bool)
    ensures Contains(formula, "d20") ==> !r
    ensures !Contains(formula, "d20") ==> r == patterns(formula)
  {
    if Contains(formula, "d20") then false else patterns(formula)
  }

  /** A d20 anywhere in the formula rules it out, whatever the patterns accept. */
  lemma D20IsNeverDamage(before: string, after: string, patterns: string -> bool)
    ensures !LooksLikeDamageFormula(before + "d20" + after, patterns)
  {
    ContainsInfix(before, "d20", after);
  }
}
