/**
 * The presentation order of a module's elements: StartModule copies the
 * module-elements into a slice and bubble-sorts it by `SortKey`, swapping
 * neighbours only when the left key is strictly greater, so elements with
 * equal keys keep their stored order.
 */
module ElementOrder {
  import opened Models

  predicate SortedByKey(s: seq<ModuleElement>) {
    forall p, q :: 0 <= p < q < |s| ==> s[p].sortKey <= s[q].sortKey
  }

  /** The elements of `s` with sort key `k`, in their order in `s`. */
  function WithKey(s: seq<ModuleElement>, k: int): (r: seq<ModuleElement>)
    ensures |r| <= |s|
    decreases |s|
  {
    if s == [] then []
    else (if s[0].sortKey == k then [s[0]] else []) + WithKey(s[1..], k)
  }

  lemma {:induction false} WithKeyConcat(a: seq<ModuleElement>, b: seq<ModuleElement>, k: int)
    ensures WithKey(a + b, k) == WithKey(a, k) + WithKey(b, k)
    decreases |a|
  {
    if a == [] {
      assert a + b == b;
    } else {
      assert (a + b)[0] == a[0] && (a + b)[1..] == a[1..] + b;
      WithKeyConcat(a[1..], b, k);
      assert WithKey(a + b, k) == (if a[0].sortKey == k then [a[0]] else []) + WithKey(a[1..] + b, k);
    }
  }

  lemma {:induction false} WithKeyAbsent(s: seq<ModuleElement>, k: int)
    requires forall i :: 0 <= i < |s| ==> s[i].sortKey != k
    ensures WithKey(s, k) == []
    decreases |s|
  {
    if s != [] {
      WithKeyAbsent(s[1..], k);
    }
  }

  lemma PairSwap(x: ModuleElement, y: ModuleElement, k: int)
    requires x.sortKey != y.sortKey
    ensures WithKey([x, y], k) == WithKey([y, x], k)
  {
    assert [x, y][1..] == [y] && [y, x][1..] == [x];
    assert [x][1..] == [] && [y][1..] == [];
  }

  /** Swapping two neighbours with different keys keeps key `k`'s subsequence. */
  lemma SwapKeepsKey(s: seq<ModuleElement>, j: int, k: int)
    requires 0 <= j < |s| - 1 && s[j].sortKey != s[j + 1].sortKey
    ensures WithKey(s[j := s[j + 1]][j + 1 := s[j]], k) == WithKey(s, k)
  {
    var pre, mid, post := s[..j], [s[j], s[j + 1]], s[j + 2..];
    var swapped := [s[j + 1], s[j]];
    assert s == pre + mid + post;
    assert s[j := s[j + 1]][j + 1 := s[j]] == pre + swapped + post;
    WithKeyConcat(pre + mid, post, k);
    WithKeyConcat(pre, mid, k);
    WithKeyConcat(pre + swapped, post, k);
    WithKeyConcat(pre, swapped, k);
    PairSwap(s[j], s[j + 1], k);
  }

  lemma SwapKeepsWithKey(s: seq<ModuleElement>, j: int)
    requires 0 <= j < |s| - 1 && s[j].sortKey != s[j + 1].sortKey
    ensures forall k :: WithKey(s[j := s[j + 1]][j + 1 := s[j]], k) == WithKey(s, k)
  {
    forall k
      ensures WithKey(s[j := s[j + 1]][j + 1 := s[j]], k) == WithKey(s, k)
    {
      SwapKeepsKey(s, j, k);
    }
  }

  /** Every key in `s[..m]` is at most every key in `s[m..]`. */
  predicate PrefixBelowSuffix(s: seq<ModuleElement>, m: int) {
    forall p, q :: 0 <= p < m <= q < |s| ==> s[p].sortKey <= s[q].sortKey
  }

  predicate SuffixSorted(s: seq<ModuleElement>, m: nat) {
    forall p, q :: m <= p < q < |s| ==> s[p].sortKey <= s[q].sortKey
  }

  /** The two sequences hold the same elements per key, in the same order. */
  ghost predicate SameKeys(s: seq<ModuleElement>, t: seq<ModuleElement>) {
    forall k :: WithKey(s, k) == WithKey(t, k)
  }

  lemma SameKeysTrans(s: seq<ModuleElement>, t: seq<ModuleElement>, u: seq<ModuleElement>)
    requires SameKeys(s, t) && SameKeys(t, u)
    ensures SameKeys(s, u)
  {
  }

  /** A swap of the inner loop keeps its invariants, one position further on. */
  lemma SwapStep(s: seq<ModuleElement>, j: int, m: int)
    requires 0 <= j < m - 1 && m <= |s|
    requires PrefixBelowSuffix(s, m) && SuffixSorted(s, m)
    requires forall p :: 0 <= p <= j ==> s[p].sortKey <= s[j].sortKey
    requires s[j].sortKey > s[j + 1].sortKey
    ensures var t := s[j := s[j + 1]][j + 1 := s[j]];
      && PrefixBelowSuffix(t, m) && SuffixSorted(t, m)
      && (forall p :: 0 <= p <= j + 1 ==> t[p].sortKey <= t[j + 1].sortKey)
      && multiset(t) == multiset(s)
      && SameKeys(t, s)
  {
    SwapKeepsWithKey(s, j);
  }

  /** At the end of a pass the largest key of the prefix sits just before the suffix. */
  lemma PassDone(s: seq<ModuleElement>, m: int)
    requires 0 < m <= |s|
    requires PrefixBelowSuffix(s, m) && SuffixSorted(s, m)
    requires forall p :: 0 <= p <= m - 1 ==> s[p].sortKey <= s[m - 1].sortKey
    ensures PrefixBelowSuffix(s, m - 1) && SuffixSorted(s, m - 1)
  {
  }

  /** `s` with the neighbours at `j` and `j + 1` exchanged. */
  function Swapped(s: seq<ModuleElement>, j: int): seq<ModuleElement>
    requires 0 <= j < |s| - 1
  {
    s[j := s[j + 1]][j + 1 := s[j]]
  }

  /**
   * The invariant of a pass over `s[..m]` after `j` steps: the suffix stays
   * sorted and above the prefix, `s[j]` holds the largest key seen so far,
   * and `s` is a rearrangement of `orig` keeping each key's order.
   */
  ghost predicate PassInv(s: seq<ModuleElement>, orig: seq<ModuleElement>, m: int, j: int) {
    && 0 <= j < m <= |s|
    && PrefixBelowSuffix(s, m) && SuffixSorted(s, m)
    && (forall p :: 0 <= p <= j ==> s[p].sortKey <= s[j].sortKey)
    && multiset(s) == multiset(orig)
    && SameKeys(s, orig)
  }

  lemma PassStart(s: seq<ModuleElement>, m: int)
    requires 0 < m <= |s|
    requires PrefixBelowSuffix(s, m) && SuffixSorted(s, m)
    ensures PassInv(s, s, m, 0)
  {
  }

  /** One step of the inner loop, swapping when the left key is strictly greater, keeps the invariant. */
  lemma PassStep(s: seq<ModuleElement>, orig: seq<ModuleElement>, m: int, j: int)
    requires PassInv(s, orig, m, j) && j < m - 1
    ensures PassInv(if s[j].sortKey > s[j + 1].sortKey then Swapped(s, j) else s, orig, m, j + 1)
  {
    if s[j].sortKey > s[j + 1].sortKey {
      SwapStep(s, j, m);
      SameKeysTrans(Swapped(s, j), s, orig);
    }
  }

  lemma PassEnd(s: seq<ModuleElement>, orig: seq<ModuleElement>, m: int)
    requires PassInv(s, orig, m, m - 1)
    ensures PrefixBelowSuffix(s, m - 1) && SuffixSorted(s, m - 1)
    ensures multiset(s) == multiset(orig) && SameKeys(s, orig)
  {
    PassDone(s, m);
  }

  /** One pass of the inner loop: carries the largest key of `a[..m]` to `a[m - 1]`. */
  method BubblePass(a: array<ModuleElement>, m: int)
    requires 0 < m <= a.Length
    requires PrefixBelowSuffix(a[..], m) && SuffixSorted(a[..], m)
    modifies a
    ensures PrefixBelowSuffix(a[..], m - 1) && SuffixSorted(a[..], m - 1)
    ensures multiset(a[..]) == multiset(old(a[..]))
    ensures SameKeys(a[..], old(a[..]))
  {
    PassStart(a[..], m);
    for j := 0 to m - 1
      invariant PassInv(a[..], old(a[..]), m, j)
    {
      ghost var before := a[..];
      PassStep(before, old(a[..]), m, j);
      if a[j].sortKey > a[j + 1].sortKey {
        a[j], a[j + 1] := a[j + 1], a[j];
        assert a[..] == Swapped(before, j);
      }
    }
    PassEnd(a[..], old(a[..]), m);
  }

  /** The bubble sort of StartModule, in place on the copied slice. */
  method SortByKey(a: array<ModuleElement>)
    modifies a
    ensures SortedByKey(a[..])
    ensures multiset(a[..]) == multiset(old(a[..]))
    ensures SameKeys(a[..], old(a[..]))
  {
    var n := a.Length;
    for i := 0 to n
      invariant PrefixBelowSuffix(a[..], n - i) && SuffixSorted(a[..], n - i)
      invariant multiset(a[..]) == multiset(old(a[..]))
      invariant SameKeys(a[..], old(a[..]))
    {
      BubblePass(a, n - i);
    }
  }

  /** Inserts `x` after every element whose key is at most its own. */
  function Insert(x: ModuleElement, s: seq<ModuleElement>): seq<ModuleElement>
    decreases |s|
  {
    if s == [] then [x]
    else if x.sortKey < s[0].sortKey then [x] + s
    else [s[0]] + Insert(x, s[1..])
  }

  /** The stable sort by key: insertion of each element in turn. */
  function KeySorted(s: seq<ModuleElement>): seq<ModuleElement>
    decreases |s|
  {
    if s == [] then [] else Insert(s[|s| - 1], KeySorted(s[..|s| - 1]))
  }

  /** Every element of key `k`'s subsequence comes from `s` and has key `k`. */
  lemma {:induction false} WithKeyElements(s: seq<ModuleElement>, k: int)
    ensures forall i :: 0 <= i < |WithKey(s, k)| ==> WithKey(s, k)[i] in s && WithKey(s, k)[i].sortKey == k
    decreases |s|
  {
    if s != [] {
      WithKeyElements(s[1..], k);
    }
  }

  lemma WithKeySnoc(s: seq<ModuleElement>, x: ModuleElement, k: int)
    ensures WithKey(s + [x], k) == WithKey(s, k) + (if x.sortKey == k then [x] else [])
  {
    WithKeyConcat(s, [x], k);
    assert [x][1..] == [];
  }

  /** Insertion adds exactly the inserted element. */
  lemma {:induction false} InsertPermutes(x: ModuleElement, s: seq<ModuleElement>)
    ensures multiset(Insert(x, s)) == multiset(s) + multiset{x}
    decreases |s|
  {
    if s != [] && x.sortKey >= s[0].sortKey {
      InsertPermutes(x, s[1..]);
      assert s == [s[0]] + s[1..];
    }
  }

  /** Inserting an element no smaller than `b` into elements no smaller than `b` keeps them so. */
  lemma {:induction false} InsertBound(x: ModuleElement, s: seq<ModuleElement>, b: int)
    requires b <= x.sortKey
    requires forall i :: 0 <= i < |s| ==> b <= s[i].sortKey
    ensures forall i :: 0 <= i < |Insert(x, s)| ==> b <= Insert(x, s)[i].sortKey
    decreases |s|
  {
    if s != [] && x.sortKey >= s[0].sortKey {
      InsertBound(x, s[1..], b);
    }
  }

  /** Inserting into a key-sorted list keeps it sorted and adds exactly the element. */
  lemma {:induction false} InsertOrder(x: ModuleElement, s: seq<ModuleElement>)
    requires SortedByKey(s)
    ensures SortedByKey(Insert(x, s))
    ensures multiset(Insert(x, s)) == multiset(s) + multiset{x}
    decreases |s|
  {
    InsertPermutes(x, s);
    InsertSorted(x, s);
  }

  lemma {:induction false} InsertSorted(x: ModuleElement, s: seq<ModuleElement>)
    requires SortedByKey(s)
    ensures SortedByKey(Insert(x, s))
    decreases |s|
  {
    if s != [] && x.sortKey >= s[0].sortKey {
      var t := s[1..];
      InsertSorted(x, t);
      InsertBound(x, t, s[0].sortKey);
      ConsSorted(s[0], Insert(x, t));
    }
  }

  /** A head no greater than any element of a sorted list keeps it sorted. */
  lemma ConsSorted(h: ModuleElement, r: seq<ModuleElement>)
    requires SortedByKey(r) && forall i :: 0 <= i < |r| ==> h.sortKey <= r[i].sortKey
    ensures SortedByKey([h] + r)
  {
    forall p, q | 0 <= p < q < |[h] + r|
      ensures ([h] + r)[p].sortKey <= ([h] + r)[q].sortKey
    {
      if p > 0 {
        assert ([h] + r)[p] == r[p - 1] && ([h] + r)[q] == r[q - 1];
      }
    }
  }

  /** The tail of a key-sorted list is sorted, and no element is below the head. */
  lemma SortedTail(s: seq<ModuleElement>)
    requires SortedByKey(s) && s != []
    ensures SortedByKey(s[1..])
    ensures forall i :: 0 <= i < |s| ==> s[0].sortKey <= s[i].sortKey
  {
  }

  lemma {:induction false} InsertWithKey(x: ModuleElement, s: seq<ModuleElement>, k: int)
    requires SortedByKey(s)
    ensures WithKey(Insert(x, s), k) == WithKey(s, k) + (if x.sortKey == k then [x] else [])
    decreases |s|
  {
    if s == [] {
      assert [x][1..] == [];
    } else {
      SortedTail(s);
      if x.sortKey < s[0].sortKey {
        assert Insert(x, s) == [x] + s;
        WithKeyConcat([x], s, k);
        assert WithKey([x], k) == (if x.sortKey == k then [x] else []) by {
          assert [x][1..] == [];
        }
        if x.sortKey == k {
          assert forall i :: 0 <= i < |s| ==> s[i].sortKey != k;
          WithKeyAbsent(s, k);
        }
      } else {
        var r := Insert(x, s[1..]);
        var head := if s[0].sortKey == k then [s[0]] else [];
        InsertWithKey(x, s[1..], k);
        assert Insert(x, s) == [s[0]] + r;
        WithKeyConcat([s[0]], r, k);
        assert WithKey([s[0]], k) == head by {
          assert [s[0]][1..] == [];
        }
        assert WithKey(s, k) == head + WithKey(s[1..], k);
      }
    }
  }

  /**
   * The stable sort orders by key and keeps, for every key, the elements
   * with that key in their original order.
   */
  lemma {:induction false} KeySortedMeaning(s: seq<ModuleElement>)
    ensures SortedByKey(KeySorted(s))
    ensures multiset(KeySorted(s)) == multiset(s)
    ensures SameKeys(KeySorted(s), s)
    decreases |s|
  {
    if s != [] {
      var init, x := s[..|s| - 1], s[|s| - 1];
      KeySortedMeaning(init);
      InsertOrder(x, KeySorted(init));
      assert s == init + [x];
      forall k
        ensures WithKey(KeySorted(s), k) == WithKey(s, k)
      {
        InsertWithKey(x, KeySorted(init), k);
        WithKeySnoc(init, x, k);
      }
    }
  }

  /**
   * Sorting by key stably has one outcome: two sequences sorted by key with
   * the same elements per key, in the same order, are equal.
   */
  lemma {:induction false} StableSortUnique(s: seq<ModuleElement>, t: seq<ModuleElement>)
    requires SortedByKey(s) && SortedByKey(t)
    requires SameKeys(s, t)
    ensures s == t
    decreases |s|
  {
    if s == [] || t == [] {
      WithKeyHead(s);
      WithKeyHead(t);
    } else {
      var si, x := s[..|s| - 1], s[|s| - 1];
      var ti, y := t[..|t| - 1], t[|t| - 1];
      assert s == si + [x] && t == ti + [y];
      WithKeySnoc(si, x, x.sortKey);
      WithKeySnoc(ti, y, y.sortKey);
      KeyPresent(t, x.sortKey);
      KeyPresent(s, y.sortKey);
      assert y.sortKey == x.sortKey;
      SameKeysDropLast(si, x, ti, y);
      StableSortUnique(si, ti);
    }
  }

  /**
   * Two sequences with the same elements per key whose last elements share a
   * key end in the same element and agree per key without it.
   */
  lemma SameKeysDropLast(si: seq<ModuleElement>, x: ModuleElement, ti: seq<ModuleElement>, y: ModuleElement)
    requires SameKeys(si + [x], ti + [y]) && x.sortKey == y.sortKey
    ensures x == y && SameKeys(si, ti)
  {
    var key := x.sortKey;
    WithKeySnoc(si, x, key);
    WithKeySnoc(ti, y, key);
    assert WithKey(si, key) + [x] == WithKey(ti, key) + [y];
    assert x == y && WithKey(si, key) == WithKey(ti, key) by {
      var u, v := WithKey(si, key) + [x], WithKey(ti, key) + [y];
      assert u[..|u| - 1] == WithKey(si, key);
      assert v[..|v| - 1] == WithKey(ti, key);
    }
    forall k
      ensures WithKey(si, k) == WithKey(ti, k)
    {
      assert WithKey(si + [x], k) == WithKey(ti + [y], k);
      if k != key {
        WithKeySnoc(si, x, k);
        WithKeySnoc(ti, y, k);
        assert WithKey(si, k) + [] == WithKey(si, k);
        assert WithKey(ti, k) + [] == WithKey(ti, k);
      }
    }
  }

  /** A non-empty sequence has a non-empty subsequence for its first key. */
  lemma WithKeyHead(s: seq<ModuleElement>)
    ensures s != [] ==> WithKey(s, s[0].sortKey) != []
  {
  }

  /** A sorted sequence holding an element of key `k` ends in a key at least `k`. */
  lemma KeyPresent(s: seq<ModuleElement>, k: int)
    requires SortedByKey(s) && s != [] && WithKey(s, k) != []
    ensures k <= s[|s| - 1].sortKey
  {
    WithKeyElements(s, k);
    var e := WithKey(s, k)[0];
    var i :| 0 <= i < |s| && s[i] == e;
    if i < |s| - 1 {
      assert s[i].sortKey <= s[|s| - 1].sortKey;
    }
  }

  /** The bubble sort's result is the stable sort of its input. */
  lemma SortByKeyIsStable(before: seq<ModuleElement>, after: seq<ModuleElement>)
    requires SortedByKey(after)
    requires SameKeys(after, before)
    ensures after == KeySorted(before)
  {
    KeySortedMeaning(before);
    StableSortUnique(after, KeySorted(before));
  }
}
