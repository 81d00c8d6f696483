/** `Array.prototype.sort` with a comparator, and `Array.prototype.reverse`, as the
    compendium browser uses them. The host sort is stable: it is modelled as insertion
    sort, where an element moves before an earlier one only when the comparator says the
    earlier one is greater. */
module Sorting {

  /** Inserts `x` after every trailing element it does not compare below. */
  function Insert<T>(s: seq<T>, x: T, cmp: (T, T) -> int): (r: seq<T>)
    ensures |r| == |s| + 1
    decreases |s|
  {
    if s == [] || cmp(s[|s| - 1], x) <= 0 then s + [x]
    else Insert(s[..|s| - 1], x, cmp) + [s[|s| - 1]]
  }

  /** The stable sort of `s` by `cmp`. */
  function InsertionSort<T>(s: seq<T>, cmp: (T, T) -> int): (r: seq<T>)
    ensures |r| == |s|
    decreases |s|
  {
    if s == [] then [] else Insert(InsertionSort(s[..|s| - 1], cmp), s[|s| - 1], cmp)
  }

  lemma {:induction false} InsertPermutes<T>(s: seq<T>, x: T, cmp: (T, T) -> int)
    ensures multiset(Insert(s, x, cmp)) == multiset(s) + multiset{x}
    decreases |s|
  {
    if s != [] && cmp(s[|s| - 1], x) > 0 {
      var init := s[..|s| - 1];
      assert s == init + [s[|s| - 1]];
      InsertPermutes(init, x, cmp);
    }
  }

  /** The sort only rearranges: its result is a permutation of the input. */
  lemma {:induction false} SortPermutes<T>(s: seq<T>, cmp: (T, T) -> int)
    ensures multiset(InsertionSort(s, cmp)) == multiset(s)
    decreases |s|
  {
    if s != [] {
      var init := s[..|s| - 1];
      assert s == init + [s[|s| - 1]];
      SortPermutes(init, cmp);
      InsertPermutes(InsertionSort(init, cmp), s[|s| - 1], cmp);
    }
  }

  /** No pair of elements is out of order. */
  ghost predicate Sorted<T>(s: seq<T>, cmp: (T, T) -> int) {
    forall i, j :: 0 <= i < j < |s| ==> cmp(s[i], s[j]) <= 0
  }

  /** `cmp` orders the values that satisfy `dom` totally: any two compare one way or the
      other, and "not greater" is transitive. */
  ghost predicate TotalPreorderOn<T(!new)>(dom: T -> bool, cmp: (T, T) -> int) {
    && (forall a, b {:trigger cmp(a, b)} | dom(a) && dom(b) :: cmp(a, b) <= 0 || cmp(b, a) <= 0)
    && (forall a, b, c {:trigger cmp(a, b), cmp(b, c)} | dom(a) && dom(b) && dom(c) ::
          cmp(a, b) <= 0 && cmp(b, c) <= 0 ==> cmp(a, c) <= 0)
  }

  ghost predicate AllIn<T>(s: seq<T>, dom: T -> bool) {
    forall i | 0 <= i < |s| :: dom(s[i])
  }

  lemma SortedAppend<T>(s: seq<T>, y: T, cmp: (T, T) -> int)
    requires Sorted(s, cmp) && forall i | 0 <= i < |s| :: cmp(s[i], y) <= 0
    ensures Sorted(s + [y], cmp)
  {
    var r := s + [y];
    forall i, j | 0 <= i < j < |r| ensures cmp(r[i], r[j]) <= 0 {
      if j < |s| { assert r[i] == s[i] && r[j] == s[j]; } else { assert r[i] == s[i]; }
    }
  }

  /** Every element of `Insert(s, x)` comes from `s` or is `x`, so it is bounded by what
      bounds them both. */
  lemma InsertBounded<T>(s: seq<T>, x: T, y: T, cmp: (T, T) -> int)
    requires cmp(x, y) <= 0 && forall i | 0 <= i < |s| :: cmp(s[i], y) <= 0
    ensures forall i | 0 <= i < |s| + 1 :: cmp(Insert(s, x, cmp)[i], y) <= 0
  {
    var r := Insert(s, x, cmp);
    InsertPermutes(s, x, cmp);
    forall i | 0 <= i < |r| ensures cmp(r[i], y) <= 0 {
      assert r[i] in multiset(r);
      if r[i] in multiset(s) {
        var k :| 0 <= k < |s| && s[k] == r[i];
      }
    }
  }

  lemma {:induction false} InsertSorted<T(!new)>(s: seq<T>, x: T, cmp: (T, T) -> int, dom: T -> bool)
    requires Sorted(s, cmp) && AllIn(s, dom) && dom(x) && TotalPreorderOn(dom, cmp)
    ensures Sorted(Insert(s, x, cmp), cmp)
    decreases |s|
  {
    if s != [] {
      var init := s[..|s| - 1];
      var last := s[|s| - 1];
      if cmp(last, x) <= 0 {
        forall i | 0 <= i < |s| ensures cmp(s[i], x) <= 0 {
          if i < |s| - 1 { assert cmp(s[i], last) <= 0; }
        }
        SortedAppend(s, x, cmp);
      } else {
        assert Sorted(init, cmp);
        assert AllIn(init, dom);
        InsertSorted(init, x, cmp, dom);
        assert cmp(x, last) <= 0;
        forall i | 0 <= i < |init| ensures cmp(init[i], last) <= 0 {
          assert init[i] == s[i];
        }
        InsertBounded(init, x, last, cmp);
        SortedAppend(Insert(init, x, cmp), last, cmp);
      }
    }
  }

  /** When the comparator totally preorders the elements, the sort returns a sorted
      sequence. */
  lemma {:induction false} SortSorted<T(!new)>(s: seq<T>, cmp: (T, T) -> int, dom: T -> bool)
    requires AllIn(s, dom) && TotalPreorderOn(dom, cmp)
    ensures Sorted(InsertionSort(s, cmp), cmp)
    ensures AllIn(InsertionSort(s, cmp), dom)
    decreases |s|
  {
    if s != [] {
      var init := s[..|s| - 1];
      var last := s[|s| - 1];
      assert AllIn(init, dom);
      SortSorted(init, cmp, dom);
      InsertSorted(InsertionSort(init, cmp), last, cmp, dom);
      InsertDomain(InsertionSort(init, cmp), last, cmp, dom);
    }
  }

  lemma InsertDomain<T>(s: seq<T>, x: T, cmp: (T, T) -> int, dom: T -> bool)
    requires AllIn(s, dom) && dom(x)
    ensures AllIn(Insert(s, x, cmp), dom)
  {
    var r := Insert(s, x, cmp);
    InsertPermutes(s, x, cmp);
    forall i | 0 <= i < |r| ensures dom(r[i]) {
      assert r[i] in multiset(r);
      if r[i] in multiset(s) {
        var k :| 0 <= k < |s| && s[k] == r[i];
      }
    }
  }

  /** An input that is already in order is returned unchanged: ties keep their order. */
  lemma {:induction false} SortKeepsSorted<T>(s: seq<T>, cmp: (T, T) -> int)
    requires Sorted(s, cmp)
    ensures InsertionSort(s, cmp) == s
    decreases |s|
  {
    if s != [] {
      var init := s[..|s| - 1];
      assert Sorted(init, cmp);
      SortKeepsSorted(init, cmp);
      assert s == init + [s[|s| - 1]];
      if |init| > 0 { assert cmp(init[|init| - 1], s[|s| - 1]) <= 0; }
    }
  }

  /** A comparator that finds every pair equal leaves the order untouched. */
  lemma ConstantComparator<T>(s: seq<T>, cmp: (T, T) -> int)
    requires forall a, b :: cmp(a, b) == 0
    ensures InsertionSort(s, cmp) == s
  {
    SortKeepsSorted(s, cmp);
  }

  /** The sort depends only on the comparator's values. */
  lemma {:induction false} SameComparator<T>(s: seq<T>, c1: (T, T) -> int, c2: (T, T) -> int)
    requires forall a, b :: c1(a, b) == c2(a, b)
    ensures InsertionSort(s, c1) == InsertionSort(s, c2)
    decreases |s|
  {
    if s != [] {
      SameComparator(s[..|s| - 1], c1, c2);
      SameComparatorInsert(InsertionSort(s[..|s| - 1], c1), s[|s| - 1], c1, c2);
    }
  }

  lemma {:induction false} SameComparatorInsert<T>(s: seq<T>, x: T, c1: (T, T) -> int, c2: (T, T) -> int)
    requires forall a, b :: c1(a, b) == c2(a, b)
    ensures Insert(s, x, c1) == Insert(s, x, c2)
    decreases |s|
  {
    if s != [] { SameComparatorInsert(s[..|s| - 1], x, c1, c2); }
  }

  /** No two elements share a key. */
  ghost predicate DistinctBy<T, K>(s: seq<T>, key: T -> K) {
    forall i, j | 0 <= i < j < |s| :: key(s[i]) != key(s[j])
  }

  lemma {:induction false} InsertDistinct<T, K>(s: seq<T>, x: T, cmp: (T, T) -> int, key: T -> K)
    requires DistinctBy(s, key) && forall i | 0 <= i < |s| :: key(s[i]) != key(x)
    ensures DistinctBy(Insert(s, x, cmp), key)
    decreases |s|
  {
    if s != [] && cmp(s[|s| - 1], x) > 0 {
      var init := s[..|s| - 1];
      InsertDistinct(init, x, cmp, key);
      InsertPermutes(init, x, cmp);
      var r := Insert(init, x, cmp);
      assert s == init + [s[|s| - 1]];
      forall i | 0 <= i < |r| ensures key(r[i]) != key(s[|s| - 1]) {
        var y := r[i];
        assert y in multiset(r);
        if y != x {
          assert y in multiset(init);
          var k :| 0 <= k < |init| && init[k] == y;
        }
      }
    }
  }

  /** Sorting keeps distinct elements distinct. */
  lemma {:induction false} SortDistinct<T, K>(s: seq<T>, cmp: (T, T) -> int, key: T -> K)
    requires DistinctBy(s, key)
    ensures DistinctBy(InsertionSort(s, cmp), key)
    decreases |s|
  {
    if s != [] {
      var init := s[..|s| - 1];
      assert s == init + [s[|s| - 1]];
      SortDistinct(init, cmp, key);
      SortPermutes(init, cmp);
      var sorted := InsertionSort(init, cmp);
      forall i | 0 <= i < |sorted| ensures key(sorted[i]) != key(s[|s| - 1]) {
        var y := sorted[i];
        assert y in multiset(sorted);
        var k :| 0 <= k < |init| && init[k] == y;
      }
      InsertDistinct(sorted, s[|s| - 1], cmp, key);
    }
  }

  // ---- in place -----------------------------------------------------------------------

  /** Moves `a[i]` down into the sorted prefix `a[..i]`. */
  method InsertInPlace<T>(a: array<T>, i: nat, cmp: (T, T) -> int)
    requires i < a.Length
    modifies a
    ensures a[..i + 1] == Insert(old(a[..i]), old(a[i]), cmp)
    ensures a[i + 1..] == old(a[i + 1..])
  {
    var x := a[i];
    ghost var sorted := a[..i];
    var j := i;
    while j > 0 && cmp(a[j - 1], x) > 0
      invariant 0 <= j <= i
      invariant forall k | 0 <= k < j :: a[k] == sorted[k]
      invariant forall k | j < k <= i :: a[k] == sorted[k - 1]
      invariant forall k | i < k < a.Length :: a[k] == old(a[k])
      invariant forall k | j <= k < i :: cmp(sorted[k], x) > 0
    {
      a[j] := a[j - 1];
      j := j - 1;
    }
    a[j] := x;
    InsertAt(sorted, j, x, cmp);
    assert a[..i + 1] == sorted[..j] + [x] + sorted[j..];
  }

  /** Inserting `x` lands it just after the last element that does not exceed it, when
      every later element does. */
  lemma {:induction false} InsertAt<T>(s: seq<T>, j: nat, x: T, cmp: (T, T) -> int)
    requires j <= |s| && (j == 0 || cmp(s[j - 1], x) <= 0)
    requires forall k | j <= k < |s| :: cmp(s[k], x) > 0
    ensures Insert(s, x, cmp) == s[..j] + [x] + s[j..]
    decreases |s|
  {
    if |s| == j {
      assert s[..j] == s && s[j..] == [];
    } else {
      var init := s[..|s| - 1];
      InsertAt(init, j, x, cmp);
      assert init[..j] == s[..j];
      assert init[j..] + [s[|s| - 1]] == s[j..];
    }
  }

  /** Sorts `a` in place, exactly as the stable sort orders it. */
  method SortInPlace<T>(a: array<T>, cmp: (T, T) -> int)
    modifies a
    ensures a[..] == InsertionSort(old(a[..]), cmp)
  {
    ghost var input := a[..];
    var i := 0;
    while i < a.Length
      invariant 0 <= i <= a.Length
      invariant a[..i] == InsertionSort(input[..i], cmp)
      invariant a[i..] == input[i..]
    {
      assert a[i] == input[i];
      InsertInPlace(a, i, cmp);
      assert input[..i + 1][..i] == input[..i];
      i := i + 1;
    }
    assert input[..a.Length] == input;
  }

  /** The sequence read back to front. */
  function Reverse<T>(s: seq<T>): (r: seq<T>)
    ensures |r| == |s|
    decreases |s|
  {
    if s == [] then [] else [s[|s| - 1]] + Reverse(s[..|s| - 1])
  }

  lemma {:induction false} ReverseAt<T>(s: seq<T>, k: nat)
    requires k < |s|
    ensures Reverse(s)[k] == s[|s| - 1 - k]
    decreases |s|
  {
    if k > 0 { ReverseAt(s[..|s| - 1], k - 1); }
  }

  /** Reversing a sorted sequence gives a sequence sorted the other way. */
  lemma ReverseSorted<T>(s: seq<T>, cmp: (T, T) -> int)
    requires Sorted(s, cmp)
    ensures forall i, j :: 0 <= i < j < |s| ==> cmp(Reverse(s)[j], Reverse(s)[i]) <= 0
  {
    forall i, j | 0 <= i < j < |s| ensures cmp(Reverse(s)[j], Reverse(s)[i]) <= 0 {
      ReverseAt(s, i);
      ReverseAt(s, j);
    }
  }

  /** Reversing twice gives the sequence back. */
  lemma ReverseReverse<T>(s: seq<T>)
    ensures Reverse(Reverse(s)) == s
  {
    forall k | 0 <= k < |s| ensures Reverse(Reverse(s))[k] == s[k] {
      ReverseAt(Reverse(s), k);
      ReverseAt(s, |s| - 1 - k);
    }
  }

  /** Reverses `a` in place. */
  method ReverseInPlace<T>(a: array<T>)
    modifies a
    ensures a[..] == Reverse(old(a[..]))
  {
    ghost var input := a[..];
    var lo, hi := 0, a.Length - 1;
    while lo < hi
      invariant 0 <= lo && hi == a.Length - 1 - lo && lo <= a.Length
      invariant forall k :: 0 <= k < lo ==> a[k] == input[a.Length - 1 - k] && a[a.Length - 1 - k] == input[k]
      invariant forall k :: lo <= k <= hi ==> a[k] == input[k]
    {
      a[lo], a[hi] := a[hi], a[lo];
      lo, hi := lo + 1, hi - 1;
    }
    forall k | 0 <= k < a.Length ensures a[k] == Reverse(input)[k] {
      ReverseAt(input, k);
    }
    assert a[..] == Reverse(input);
  }
}
