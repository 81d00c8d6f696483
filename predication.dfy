/** The statements the compendium browser and the ruler compile selections into, and
    their meaning over a set of domain tags.

    The evaluator behind the system's predicate class is not part of this model. The
    semantics below is an assumption of the model: a bare string holds when it is one of
    the tags, `and`/`or`/`not` are the boolean connectives, and `gte`/`lte` on a key hold
    when some tag `key:<integer>` carries a number on the right side of the bound. */
module Predication {
  import opened Wrappers
  import opened Strings

  datatype Predicate =
    | Leaf(tag: string)
    | And(all: seq<Predicate>)
    | Or(any: seq<Predicate>)
    | Not(negated: Predicate)
    | Gte(key: string, lower: int)
    | Lte(key: string, upper: int)

  /** The number a tag carries for a key: `key:12` carries 12 for `key`. */
  function NumberAt(key: string, t: string): (r: Option<int>)
    ensures r.Some? ==> StartsWith(t, key + ":")
  {
    if StartsWith(t, key + ":") then ParseInt(t[|key| + 1..]) else None
  }

  lemma NumberAtTag(key: string, n: int)
    ensures NumberAt(key, Tag(key, IntToString(n))) == Some(n)
  {
    var t := Tag(key, IntToString(n));
    assert t[..|key| + 1] == key + ":";
    assert t[|key| + 1..] == IntToString(n);
    ParseIntToString(n);
  }

  predicate Test(p: Predicate, tags: set<string>)
    decreases p
  {
    match p
    case Leaf(t) => t in tags
    case And(ps) => forall i | 0 <= i < |ps| :: Test(ps[i], tags)
    case Or(ps) => exists i | 0 <= i < |ps| :: Test(ps[i], tags)
    case Not(q) => !Test(q, tags)
    case Gte(k, b) => exists t | t in tags :: NumberAt(k, t).Some? && NumberAt(k, t).value >= b
    case Lte(k, b) => exists t | t in tags :: NumberAt(k, t).Some? && NumberAt(k, t).value <= b
  }

  /** A conjunction of concatenated statement lists holds when both lists hold. */
  lemma TestAndAppend(a: seq<Predicate>, b: seq<Predicate>, tags: set<string>)
    ensures Test(And(a + b), tags) <==> Test(And(a), tags) && Test(And(b), tags)
  {
    if Test(And(a), tags) && Test(And(b), tags) {
      forall i | 0 <= i < |a + b| ensures Test((a + b)[i], tags) {
        if i < |a| { assert (a + b)[i] == a[i]; } else { assert (a + b)[i] == b[i - |a|]; }
      }
    }
    if Test(And(a + b), tags) {
      forall i | 0 <= i < |a| ensures Test(a[i], tags) { assert (a + b)[i] == a[i]; }
      forall i | 0 <= i < |b| ensures Test(b[i], tags) { assert (a + b)[|a| + i] == b[i]; }
    }
  }

  /** Every tag set satisfies the empty conjunction. */
  lemma TestEmptyAnd(tags: set<string>)
    ensures Test(And([]), tags)
  {
  }

  /** The tags of an entry that carries a single number for a key: exactly one value is
      tagged under that key, as the level, rank and price tags are. */
  ghost predicate SingleNumber(key: string, n: int, tags: set<string>) {
    Tag(key, IntToString(n)) in tags
    && forall t | t in tags :: NumberAt(key, t).Some? ==> NumberAt(key, t) == Some(n)
  }

  /** On such an entry an inclusive `gte`/`lte` pair is plain interval membership. */
  lemma InclusiveRange(key: string, n: int, lo: int, hi: int, tags: set<string>)
    requires SingleNumber(key, n, tags)
    ensures Test(And([Gte(key, lo), Lte(key, hi)]), tags) <==> lo <= n <= hi
  {
    NumberAtTag(key, n);
    var t := Tag(key, IntToString(n));
    assert NumberAt(key, t).Some?;
    var p := And([Gte(key, lo), Lte(key, hi)]);
    if lo <= n <= hi {
      assert Test(p.all[0], tags);
      assert Test(p.all[1], tags);
    }
    if Test(p, tags) {
      assert Test(p.all[0], tags) && Test(p.all[1], tags);
      var u :| u in tags && NumberAt(key, u).Some? && NumberAt(key, u).value >= lo;
      var w :| w in tags && NumberAt(key, w).Some? && NumberAt(key, w).value <= hi;
      assert NumberAt(key, u) == Some(n) && NumberAt(key, w) == Some(n);
    }
  }
}
