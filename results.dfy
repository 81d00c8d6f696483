/** A tab's result list: the comparator of `sortResult`, the in-place sort and reverse,
    the filter by the compiled predicate, and the search-term processor. */
module Results {
  import opened Wrappers
  import opened Strings
  import opened FilterData
  import opened Records
  import Sorting
  import P = Predication
  import Compiler

  // ---- the comparator -----------------------------------------------------------------

  /** The sort keys compared as numbers, with the name as the tie-break. */
  predicate NumericKey(key: string) {
    key == "level" || key == "price" || key == "rank"
  }

  /** The entry field a numeric sort key reads. */
  function KeyOf(key: string, e: IndexEntry): JsValue<int> {
    if key == "level" then e.level else if key == "price" then e.price else if key == "rank" then e.rank else Undefined
  }

  /** `a - b || names`: a difference of 0, or `NaN` when either side is missing, falls
      back to the name comparison. */
  function KeyThenName(ka: JsValue<int>, kb: JsValue<int>, names: int): int {
    var x := NumericValue(ka);
    var y := NumericValue(kb);
    if x.Some? && y.Some? && x.value != y.value then x.value - y.value else names
  }

  /** The comparator of `sortResult`, with the entry's own `price` field read for the
      price key. */
  function CompareBy(key: string, collate: (string, string) -> int, a: IndexEntry, b: IndexEntry): int {
    if key == "name" then collate(a.name, b.name)
    else if NumericKey(key) then KeyThenName(KeyOf(key, a), KeyOf(key, b), collate(a.name, b.name))
    else 0
  }

  /** The comparator as written: the price key reads `priceInCopper`, which no entry
      carries, so both sides are `undefined`. */
  function CompareByAsWritten(key: string, collate: (string, string) -> int, a: IndexEntry, b: IndexEntry): int {
    if key == "price" then KeyThenName(Undefined, Undefined, collate(a.name, b.name))
    else CompareBy(key, collate, a, b)
  }

  function Comparator(key: string, collate: (string, string) -> int): (IndexEntry, IndexEntry) -> int {
    (a: IndexEntry, b: IndexEntry) => CompareBy(key, collate, a, b)
  }

  function ComparatorAsWritten(key: string, collate: (string, string) -> int): (IndexEntry, IndexEntry) -> int {
    (a: IndexEntry, b: IndexEntry) => CompareByAsWritten(key, collate, a, b)
  }

  /** `sortResult`: the stable sort by the order key, reversed for a descending order. */
  function SortResult(entries: seq<IndexEntry>, order: OrderData, collate: (string, string) -> int): (r: seq<IndexEntry>)
    ensures |r| == |entries|
  {
    var sorted := Sorting.InsertionSort(entries, Comparator(order.sortBy, collate));
    if order.direction == Asc then sorted else Sorting.Reverse(sorted)
  }

  function SortResultAsWritten(entries: seq<IndexEntry>, order: OrderData, collate: (string, string) -> int): (r: seq<IndexEntry>)
    ensures |r| == |entries|
  {
    var sorted := Sorting.InsertionSort(entries, ComparatorAsWritten(order.sortBy, collate));
    if order.direction == Asc then sorted else Sorting.Reverse(sorted)
  }

  /** `result.sort(...)` and then `sorted.reverse()` on the same array. */
  method SortResultInPlace(a: array<IndexEntry>, order: OrderData, collate: (string, string) -> int)
    modifies a
    ensures a[..] == SortResult(old(a[..]), order, collate)
  {
    Sorting.SortInPlace(a, Comparator(order.sortBy, collate));
    if order.direction != Asc {
      Sorting.ReverseInPlace(a);
    }
  }

  // ---- what the sort promises -------------------------------------------------------

  /** The sort only rearranges the entries. */
  lemma SortResultPermutes(entries: seq<IndexEntry>, order: OrderData, collate: (string, string) -> int)
    ensures multiset(SortResult(entries, order, collate)) == multiset(entries)
  {
    var cmp := Comparator(order.sortBy, collate);
    Sorting.SortPermutes(entries, cmp);
    if order.direction != Asc {
      var s := Sorting.InsertionSort(entries, cmp);
      ReversePermutes(s);
    }
  }

  lemma {:induction false} ReversePermutes<T>(s: seq<T>)
    ensures multiset(Sorting.Reverse(s)) == multiset(s)
    decreases |s|
  {
    if s != [] {
      ReversePermutes(s[..|s| - 1]);
      assert s == s[..|s| - 1] + [s[|s| - 1]];
    }
  }

  /** An entry the order key can compare: the name key, a numeric key whose field is not
      `undefined`, or a key the comparator does not know. */
  predicate Orderable(key: string, e: IndexEntry) {
    NumericKey(key) ==> !KeyOf(key, e).Undefined?
  }

  /** With a collation that is a total preorder, the comparator orders the entries that
      carry the key totally: by the key first, by the name on a tie. */
  lemma ComparatorTotal(key: string, collate: (string, string) -> int)
    requires Sorting.TotalPreorderOn((s: string) => true, collate)
    ensures Sorting.TotalPreorderOn((e: IndexEntry) => Orderable(key, e), Comparator(key, collate))
  {
    var cmp := Comparator(key, collate);
    var dom := (e: IndexEntry) => Orderable(key, e);
    forall a, b | dom(a) && dom(b) ensures cmp(a, b) <= 0 || cmp(b, a) <= 0 {
      assert collate(a.name, b.name) <= 0 || collate(b.name, a.name) <= 0;
    }
    forall a, b, c | dom(a) && dom(b) && dom(c) && cmp(a, b) <= 0 && cmp(b, c) <= 0 ensures cmp(a, c) <= 0 {
      if key == "name" {
        assert collate(a.name, b.name) <= 0 && collate(b.name, c.name) <= 0;
      } else if NumericKey(key) {
        var x, y, z := NumericValue(KeyOf(key, a)).value, NumericValue(KeyOf(key, b)).value, NumericValue(KeyOf(key, c)).value;
        assert x < y || (x == y && collate(a.name, b.name) <= 0);
        assert y < z || (y == z && collate(b.name, c.name) <= 0);
        if x == y && y == z {
          assert collate(a.name, c.name) <= 0;
        }
      }
    }
  }

  /** Sorting entries that all carry the key gives the ascending order key key and then
      name; the descending order is the same list back to front. */
  lemma SortResultOrdered(entries: seq<IndexEntry>, order: OrderData, collate: (string, string) -> int)
    requires Sorting.TotalPreorderOn((s: string) => true, collate)
    requires forall i | 0 <= i < |entries| :: Orderable(order.sortBy, entries[i])
    ensures var r := SortResult(entries, order, collate); var cmp := Comparator(order.sortBy, collate);
      forall i, j | 0 <= i < j < |r| ::
        if order.direction == Asc then cmp(r[i], r[j]) <= 0 else cmp(r[j], r[i]) <= 0
  {
    var cmp := Comparator(order.sortBy, collate);
    var dom := (e: IndexEntry) => Orderable(order.sortBy, e);
    ComparatorTotal(order.sortBy, collate);
    assert Sorting.AllIn(entries, dom);
    Sorting.SortSorted(entries, cmp, dom);
    if order.direction != Asc {
      Sorting.ReverseSorted(Sorting.InsertionSort(entries, cmp), cmp);
    }
  }

  /** In an ascending level order, a lower level comes first, and equal levels come in
      name order. */
  lemma LevelOrder(entries: seq<IndexEntry>, order: OrderData, collate: (string, string) -> int, i: nat, j: nat)
    requires order.sortBy == "level" && order.direction == Asc
    requires Sorting.TotalPreorderOn((s: string) => true, collate)
    requires forall k | 0 <= k < |entries| :: !entries[k].level.Undefined?
    requires i < j < |entries|
    ensures var r := SortResult(entries, order, collate);
      !r[i].level.Undefined? && !r[j].level.Undefined? &&
      var x := NumericValue(r[i].level).value; var y := NumericValue(r[j].level).value;
      x < y || (x == y && collate(r[i].name, r[j].name) <= 0)
  {
    assert forall k | 0 <= k < |entries| :: Orderable(order.sortBy, entries[k]);
    SortResultOrdered(entries, order, collate);
    var r := SortResult(entries, order, collate);
    SortResultPermutes(entries, order, collate);
    assert r[i] in multiset(entries) && r[j] in multiset(entries);
    assert Comparator("level", collate)(r[i], r[j]) <= 0;
  }

  /** Descending order is exactly the ascending array reversed. */
  lemma DescendingReversesAscending(entries: seq<IndexEntry>, order: OrderData, collate: (string, string) -> int)
    requires order.direction == Desc
    ensures SortResult(entries, order, collate) == Sorting.Reverse(SortResult(entries, order.(direction := Asc), collate))
    ensures Sorting.Reverse(SortResult(entries, order, collate)) == SortResult(entries, order.(direction := Asc), collate)
  {
    Sorting.ReverseReverse(SortResult(entries, order.(direction := Asc), collate));
  }

  /** A key the comparator does not know compares every pair equal, so the entries keep
      their order (or are reversed for a descending order). */
  lemma UnknownKeyKeepsOrder(entries: seq<IndexEntry>, order: OrderData, collate: (string, string) -> int)
    requires order.sortBy != "name" && !NumericKey(order.sortBy)
    ensures SortResult(entries, order, collate) == if order.direction == Asc then entries else Sorting.Reverse(entries)
  {
    Sorting.ConstantComparator(entries, Comparator(order.sortBy, collate));
  }

  // ---- the price key ------------------------------------------------------------------

  /** As written, the price key never looks at a price: it is the name order. */
  lemma PriceOrderAsWrittenIsNameOrder(entries: seq<IndexEntry>, order: OrderData, collate: (string, string) -> int)
    requires order.sortBy == "price"
    ensures SortResultAsWritten(entries, order, collate) == SortResult(entries, order.(sortBy := "name"), collate)
  {
    Sorting.SameComparator(entries, ComparatorAsWritten("price", collate), Comparator("name", collate));
  }

  function Item(name: string, price: int): IndexEntry {
    IndexEntry(name, Undefined, Undefined, name, Val(0), Undefined, Val(price), Undefined, Undefined, {})
  }

  /** An item of 1 cp named "b" and one of 100 cp named "a": as written, sorting key price
      ascending lists the dearer item first; the corrected comparator lists the cheaper. */
  lemma PriceOrderCounterexample()
    ensures var order := OrderData("price", Asc, map[], Numeric);
      && SortResultAsWritten([Item("b", 1), Item("a", 100)], order, CompareCodeUnits) == [Item("a", 100), Item("b", 1)]
      && SortResult([Item("b", 1), Item("a", 100)], order, CompareCodeUnits) == [Item("b", 1), Item("a", 100)]
  {
    var cheap, dear := Item("b", 1), Item("a", 100);
    assert !LexLess("b", "a");
    assert CompareCodeUnits("b", "a") == 1;
    var w := ComparatorAsWritten("price", CompareCodeUnits);
    var c := Comparator("price", CompareCodeUnits);
    assert w(cheap, dear) == 1;
    assert c(cheap, dear) == -99;
    assert [cheap, dear][..1] == [cheap];
    assert Sorting.InsertionSort([cheap], w) == [cheap];
    assert Sorting.InsertionSort([cheap], c) == [cheap];
    assert Sorting.Insert([cheap], dear, w) == Sorting.Insert([], dear, w) + [cheap];
  }

  // ---- filtering ------------------------------------------------------------------------

  /** `r` is `s` with some elements left out, the rest in their order. */
  predicate IsSubsequence<T(==)>(r: seq<T>, s: seq<T>)
    decreases |s|
  {
    if r == [] then true
    else if s == [] then false
    else (r[|r| - 1] == s[|s| - 1] && IsSubsequence(r[..|r| - 1], s[..|s| - 1])) || IsSubsequence(r, s[..|s| - 1])
  }

  /** `entries.filter((i) => predicate.test(i.domains))`. */
  function Filter(entries: seq<IndexEntry>, p: P.Predicate): seq<IndexEntry>
    decreases |entries|
  {
    if entries == [] then []
    else
      var kept := Filter(entries[..|entries| - 1], p);
      if P.Test(p, entries[|entries| - 1].domains) then kept + [entries[|entries| - 1]] else kept
  }

  /** The filter keeps, in order, exactly the entries whose tags satisfy the predicate. */
  lemma {:induction false} FilterMeaning(entries: seq<IndexEntry>, p: P.Predicate)
    ensures forall e :: e in Filter(entries, p) <==> e in entries && P.Test(p, e.domains)
    ensures IsSubsequence(Filter(entries, p), entries)
    decreases |entries|
  {
    if entries != [] {
      var init := entries[..|entries| - 1];
      var last := entries[|entries| - 1];
      FilterMeaning(init, p);
      assert entries == init + [last];
      var r := Filter(entries, p);
      if P.Test(p, last.domains) {
        assert r[..|r| - 1] == Filter(init, p);
      }
    }
  }

  /** `results`: nothing without filter data; otherwise the search hits for a non-empty
      cleaned query, else the whole index, sorted and then filtered by the compiled
      predicate. */
  function ResultList(filter: Option<BrowserFilter>, index: seq<IndexEntry>, hits: seq<IndexEntry>, query: string,
                      collate: (string, string) -> int): seq<IndexEntry>
  {
    if filter.None? then []
    else
      var f := filter.value;
      Filter(SortResult(if query != "" then hits else index, f.order, collate), P.And(Compiler.Statements(f)))
  }

  /** The result list holds the candidates that match every facet of the filter, in the
      sorted order of the candidates. */
  lemma ResultListMeaning(filter: Option<BrowserFilter>, index: seq<IndexEntry>, hits: seq<IndexEntry>, query: string,
                          collate: (string, string) -> int)
    ensures filter.None? ==> ResultList(filter, index, hits, query, collate) == []
    ensures filter.Some? ==>
      var candidates := if query != "" then hits else index;
      var r := ResultList(filter, index, hits, query, collate);
      && IsSubsequence(r, SortResult(candidates, filter.value.order, collate))
      && forall e :: e in r <==> e in candidates && Compiler.Matches(filter.value, e.domains)
  {
    if filter.Some? {
      var f := filter.value;
      var candidates := if query != "" then hits else index;
      var sorted := SortResult(candidates, f.order, collate);
      FilterMeaning(sorted, P.And(Compiler.Statements(f)));
      SortResultPermutes(candidates, f.order, collate);
      forall e: IndexEntry ensures e in sorted <==> e in candidates {
        assert e in sorted <==> e in multiset(sorted);
      }
      forall e: IndexEntry ensures P.Test(P.And(Compiler.Statements(f)), e.domains) <==> Compiler.Matches(f, e.domains) {
        Compiler.BuildPredicateMeaning(f, e.domains);
      }
    }
  }

  // ---- the search-term processor ------------------------------------------------------

  /** `processTerm`: a term of one character or a stop word is dropped; otherwise each
      word segment is lower-cased, cleaned and stripped of quotes, and segments of one
      character or less are dropped. `segment`, `lower` and `clean` stand for the word
      segmenter, `toLocaleLowerCase` in the client language and `cleanQuery`. */
  function ProcessTerm(term: string, stopWords: set<string>, segment: string -> seq<string>, lower: string -> string,
                       clean: string -> string)
    : (r: Option<seq<string>>)
    ensures r.None? <==> |term| <= 1 || term in stopWords
    ensures r.Some? ==> forall i | 0 <= i < |r.value| :: |r.value[i]| > 1 && '\'' !in r.value[i] && '"' !in r.value[i]
  {
    if |term| <= 1 || term in stopWords then None
    else Some(KeepLong(StripQuotesAll(CleanAll(segment(term), lower, clean))))
  }

  function CleanAll(segments: seq<string>, lower: string -> string, clean: string -> string): (r: seq<string>)
    ensures |r| == |segments| && forall i | 0 <= i < |r| :: r[i] == clean(lower(segments[i]))
  {
    seq(|segments|, i requires 0 <= i < |segments| => clean(lower(segments[i])))
  }

  /** `.replace(/['"]/g, "")`. */
  function StripQuotes(s: string): (r: string)
    ensures '\'' !in r && '"' !in r
    ensures forall c :: c in r <==> c in s && c != '\'' && c != '"'
    decreases |s|
  {
    if s == [] then []
    else (if s[0] == '\'' || s[0] == '"' then [] else [s[0]]) + StripQuotes(s[1..])
  }

  function StripQuotesAll(ss: seq<string>): (r: seq<string>)
    ensures |r| == |ss| && forall i | 0 <= i < |r| :: r[i] == StripQuotes(ss[i])
  {
    seq(|ss|, i requires 0 <= i < |ss| => StripQuotes(ss[i]))
  }

  /** `.filter((t) => t.length > 1)`. */
  function KeepLong(ss: seq<string>): (r: seq<string>)
    ensures forall i | 0 <= i < |r| :: |r[i]| > 1 && r[i] in ss
    ensures forall t | t in ss && |t| > 1 :: t in r
    decreases |ss|
  {
    if ss == [] then [] else (if |ss[0]| > 1 then [ss[0]] else []) + KeepLong(ss[1..])
  }
}
