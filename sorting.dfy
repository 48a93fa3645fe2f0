/**
 * Stable insertion by key, the ordering step every re-ranking variant
 * relies on: team/rank.py inserts a block "before the first strictly
 * greater rank, else at the end", and Python's `sorted` is a stable sort,
 * whose result is the one SortBy computes (StableSortIsUnique).
 */
module Sorting {
  import opened Common

  ghost predicate SortedBy<T>(s: seq<T>, key: T -> real)
  {
    forall i, j :: 0 <= i < j < |s| ==> key(s[i]) <= key(s[j])
  }

  /** The elements of s whose key is exactly k, in their order in s. */
  function Select<T>(s: seq<T>, key: T -> real, k: real): seq<T>
  {
    if s == [] then [] else Select(s[..|s| - 1], key, k) + (if key(s[|s| - 1]) == k then [s[|s| - 1]] else [])
  }

  /**
   * A sort is stable when, for every key value, the elements carrying it
   * keep their relative order.
   */
  ghost predicate SameOrderPerKey<T>(a: seq<T>, b: seq<T>, key: T -> real)
  {
    forall k :: Select(a, key, k) == Select(b, key, k)
  }

  /** Index of the first element whose key is strictly greater than x's. */
  function InsertionPoint<T>(s: seq<T>, x: T, key: T -> real): (p: nat)
    ensures p <= |s|
    ensures forall i :: 0 <= i < p ==> key(s[i]) <= key(x)
    ensures p < |s| ==> key(x) < key(s[p])
  {
    if s == [] then 0
    else if key(x) < key(s[0]) then 0
    else 1 + InsertionPoint(s[1..], x, key)
  }

  /** x inserted just before the first strictly greater element, else appended. */
  function InsertBy<T>(s: seq<T>, x: T, key: T -> real): seq<T>
  {
    var p := InsertionPoint(s, x, key);
    s[..p] + [x] + s[p..]
  }

  /** Stable sort by ascending key: each element is inserted in input order. */
  function SortBy<T>(s: seq<T>, key: T -> real): seq<T>
    decreases |s|
  {
    if s == [] then [] else InsertBy(SortBy(s[..|s| - 1], key), s[|s| - 1], key)
  }

  lemma {:induction false} SelectAppend<T>(a: seq<T>, b: seq<T>, key: T -> real, k: real)
    ensures Select(a + b, key, k) == Select(a, key, k) + Select(b, key, k)
    decreases |b|
  {
    if b == [] {
      assert a + b == a;
    } else {
      assert (a + b)[..|a + b| - 1] == a + b[..|b| - 1];
      SelectAppend(a, b[..|b| - 1], key, k);
    }
  }

  lemma {:induction false} SelectAbsent<T>(s: seq<T>, key: T -> real, k: real)
    requires forall i :: 0 <= i < |s| ==> key(s[i]) != k
    ensures Select(s, key, k) == []
  {
    if s != [] {
      SelectAbsent(s[..|s| - 1], key, k);
    }
  }

  lemma {:induction false} SelectAll<T>(s: seq<T>, key: T -> real, k: real)
    requires forall i :: 0 <= i < |s| ==> key(s[i]) == k
    ensures Select(s, key, k) == s
  {
    if s != [] {
      SelectAll(s[..|s| - 1], key, k);
      assert s == s[..|s| - 1] + [s[|s| - 1]];
    }
  }

  lemma InsertByFacts<T>(s: seq<T>, x: T, key: T -> real)
    ensures |InsertBy(s, x, key)| == |s| + 1
    ensures multiset(InsertBy(s, x, key)) == multiset(s) + multiset{x}
  {
    var p := InsertionPoint(s, x, key);
    assert s == s[..p] + s[p..];
  }

  lemma InsertBySorted<T>(s: seq<T>, x: T, key: T -> real)
    requires SortedBy(s, key)
    ensures SortedBy(InsertBy(s, x, key), key)
  {
    var p := InsertionPoint(s, x, key);
    var r := InsertBy(s, x, key);
    forall i, j | 0 <= i < j < |r| ensures key(r[i]) <= key(r[j]) {
      if j < p || i > p {
      } else if i == p {
        assert key(x) < key(s[p]);
      } else {
        assert j == p || (i < p < j);
      }
    }
  }

  lemma InsertBySelect<T>(s: seq<T>, x: T, key: T -> real, k: real)
    requires SortedBy(s, key)
    ensures Select(InsertBy(s, x, key), key, k) == Select(s, key, k) + (if key(x) == k then [x] else [])
  {
    var p := InsertionPoint(s, x, key);
    var pre, post := s[..p], s[p..];
    assert InsertBy(s, x, key) == pre + [x] + post;
    assert s == pre + post;
    SelectAround(pre, x, post, key, k);
    if key(x) == k {
      NothingEqualAfterInsertionPoint(s, x, key);
    }
  }

  /** Selecting from pre + [x] + post and from pre + post, piece by piece. */
  lemma SelectAround<T>(pre: seq<T>, x: T, post: seq<T>, key: T -> real, k: real)
    ensures Select(pre + [x] + post, key, k) == Select(pre, key, k) + (if key(x) == k then [x] else []) + Select(post, key, k)
    ensures Select(pre + post, key, k) == Select(pre, key, k) + Select(post, key, k)
  {
    SelectAppend(pre + [x], post, key, k);
    SelectAppend(pre, [x], key, k);
    SelectAppend(pre, post, key, k);
    SelectSingleton(x, key, k);
  }

  lemma SelectSingleton<T>(x: T, key: T -> real, k: real)
    ensures Select([x], key, k) == (if key(x) == k then [x] else [])
  {
    assert [x][..0] == [];
  }

  /** Past the insertion point every key is strictly greater than x's. */
  lemma NothingEqualAfterInsertionPoint<T>(s: seq<T>, x: T, key: T -> real)
    requires SortedBy(s, key)
    ensures Select(s[InsertionPoint(s, x, key)..], key, key(x)) == []
  {
    var p := InsertionPoint(s, x, key);
    var post := s[p..];
    forall i | 0 <= i < |post| ensures key(post[i]) != key(x) {
      assert post[i] == s[p + i];
      assert key(s[p]) <= key(s[p + i]);
    }
    SelectAbsent(post, key, key(x));
  }

  /** SortBy returns a permutation of its input. */
  lemma {:induction false} SortByPermutation<T>(s: seq<T>, key: T -> real)
    ensures |SortBy(s, key)| == |s|
    ensures multiset(SortBy(s, key)) == multiset(s)
    decreases |s|
  {
    if s != [] {
      SortByPermutation(s[..|s| - 1], key);
      InsertByFacts(SortBy(s[..|s| - 1], key), s[|s| - 1], key);
      assert s == s[..|s| - 1] + [s[|s| - 1]];
    }
  }

  /** SortBy returns its input in ascending key order. */
  lemma {:induction false} SortBySorted<T>(s: seq<T>, key: T -> real)
    ensures SortedBy(SortBy(s, key), key)
    decreases |s|
  {
    if s != [] {
      SortBySorted(s[..|s| - 1], key);
      InsertBySorted(SortBy(s[..|s| - 1], key), s[|s| - 1], key);
    }
  }

  /** SortBy is stable: elements with equal keys keep their input order. */
  lemma {:induction false} SortByStable<T>(s: seq<T>, key: T -> real)
    ensures SameOrderPerKey(SortBy(s, key), s, key)
    decreases |s|
  {
    if s != [] {
      var t, x := s[..|s| - 1], s[|s| - 1];
      SortByStable(t, key);
      SortBySorted(t, key);
      forall k ensures Select(SortBy(s, key), key, k) == Select(s, key, k) {
        InsertBySelect(SortBy(t, key), x, key, k);
      }
    }
  }

  /** Sorting an already sorted sequence changes nothing. */
  lemma {:induction false} SortBySortedIsIdentity<T>(s: seq<T>, key: T -> real)
    requires SortedBy(s, key)
    ensures SortBy(s, key) == s
    decreases |s|
  {
    if s != [] {
      var t, x := s[..|s| - 1], s[|s| - 1];
      SortedPrefix(s, key);
      SortBySortedIsIdentity(t, key);
      InsertAfterAll(s, key);
      assert s == t + [x];
    }
  }

  /** The last element of a sorted sequence is inserted after all the others. */
  lemma InsertAfterAll<T>(s: seq<T>, key: T -> real)
    requires s != [] && SortedBy(s, key)
    ensures InsertBy(s[..|s| - 1], s[|s| - 1], key) == s[..|s| - 1] + [s[|s| - 1]]
  {
    var t, x := s[..|s| - 1], s[|s| - 1];
    assert forall i :: 0 <= i < |t| ==> key(t[i]) <= key(x);
    assert InsertionPoint(t, x, key) == |t|;
  }

  /**
   * A stable sort has exactly one possible result: two sequences that are
   * both sorted and hold, key by key, the same elements in the same order
   * are equal. So SortBy computes what Python's `sorted` computes.
   */
  lemma {:induction false} StableSortIsUnique<T>(a: seq<T>, b: seq<T>, key: T -> real)
    requires SortedBy(a, key) && SortedBy(b, key)
    requires SameOrderPerKey(a, b, key)
    ensures a == b
    decreases |a| + |b|
  {
    if a == [] || b == [] {
      EmptyOnBothSides(a, b, key);
    } else {
      var n, m := |a|, |b|;
      LastElementsAgree(a, b, key);
      var a', b' := a[..n - 1], b[..m - 1];
      DropLastKeepsOrder(a, b, key);
      SortedPrefix(a, key);
      SortedPrefix(b, key);
      StableSortIsUnique(a', b', key);
      assert a == a' + [a[n - 1]] && b == b' + [b[m - 1]];
    }
  }

  lemma SortedPrefix<T>(s: seq<T>, key: T -> real)
    requires s != [] && SortedBy(s, key)
    ensures SortedBy(s[..|s| - 1], key)
  {
  }

  /** Two sorted sequences with the same elements per key end on the same element. */
  lemma LastElementsAgree<T>(a: seq<T>, b: seq<T>, key: T -> real)
    requires a != [] && b != []
    requires SortedBy(a, key) && SortedBy(b, key)
    requires SameOrderPerKey(a, b, key)
    ensures key(a[|a| - 1]) == key(b[|b| - 1]) && a[|a| - 1] == b[|b| - 1]
  {
    LastKeysAgree(a, b, key);
    LastOfSelect(a, key);
    LastOfSelect(b, key);
    assert Select(a, key, key(a[|a| - 1])) == Select(b, key, key(a[|a| - 1]));
  }

  lemma EmptyOnBothSides<T>(a: seq<T>, b: seq<T>, key: T -> real)
    requires SameOrderPerKey(a, b, key)
    ensures a == [] <==> b == []
  {
    if a != [] && b == [] {
      SelectNonEmpty(a, key, 0);
    } else if a == [] && b != [] {
      SelectNonEmpty(b, key, 0);
    }
  }

  /** Two sorted sequences with the same elements per key end on the same key. */
  lemma LastKeysAgree<T>(a: seq<T>, b: seq<T>, key: T -> real)
    requires a != [] && b != []
    requires SortedBy(a, key) && SortedBy(b, key)
    requires SameOrderPerKey(a, b, key)
    ensures key(a[|a| - 1]) == key(b[|b| - 1])
  {
    var ka, kb := key(a[|a| - 1]), key(b[|b| - 1]);
    if ka < kb {
      SelectNonEmpty(b, key, |b| - 1);
      NothingAboveLast(a, key, kb);
    } else if kb < ka {
      SelectNonEmpty(a, key, |a| - 1);
      NothingAboveLast(b, key, ka);
    }
  }

  /** A sorted sequence holds no element with a key above its last one. */
  lemma NothingAboveLast<T>(s: seq<T>, key: T -> real, k: real)
    requires s != [] && SortedBy(s, key) && key(s[|s| - 1]) < k
    ensures Select(s, key, k) == []
  {
    assert forall i :: 0 <= i < |s| - 1 ==> key(s[i]) <= key(s[|s| - 1]);
    SelectAbsent(s, key, k);
  }

  lemma LastOfSelect<T>(s: seq<T>, key: T -> real)
    requires s != []
    ensures var sel := Select(s, key, key(s[|s| - 1])); sel != [] && sel[|sel| - 1] == s[|s| - 1]
  {
  }

  /** Dropping the last element of each side, both of the same key, keeps the per-key order equal. */
  lemma DropLastKeepsOrder<T>(a: seq<T>, b: seq<T>, key: T -> real)
    requires a != [] && b != [] && key(a[|a| - 1]) == key(b[|b| - 1])
    requires SameOrderPerKey(a, b, key)
    ensures SameOrderPerKey(a[..|a| - 1], b[..|b| - 1], key)
  {
    var n, m := |a|, |b|;
    var a', b' := a[..n - 1], b[..m - 1];
    var ka := key(a[n - 1]);
    forall k ensures Select(a', key, k) == Select(b', key, k) {
      var sa, sb := Select(a, key, k), Select(b, key, k);
      assert sa == sb;
      assert sa == Select(a', key, k) + (if ka == k then [a[n - 1]] else []);
      assert sb == Select(b', key, k) + (if ka == k then [b[m - 1]] else []);
      if ka == k {
        assert Select(a', key, k) == sa[..|sa| - 1];
        assert Select(b', key, k) == sb[..|sb| - 1];
      } else {
        assert Select(a', key, k) == sa;
        assert Select(b', key, k) == sb;
      }
    }
  }

  lemma {:induction false} SelectNonEmpty<T>(s: seq<T>, key: T -> real, i: nat)
    requires i < |s|
    ensures Select(s, key, key(s[i])) != []
    decreases |s|
  {
    if i < |s| - 1 {
      SelectNonEmpty(s[..|s| - 1], key, i);
    }
  }

  /** Selecting one key value is filtering by the predicate "has that key". */
  lemma {:induction false} SelectAsFilter<T>(s: seq<T>, key: T -> real, k: real, f: T -> bool)
    requires forall x :: f(x) == (key(x) == k)
    ensures Select(s, key, k) == Filter(s, f)
  {
    if s != [] {
      SelectAsFilter(s[..|s| - 1], key, k, f);
    }
  }

  /** The first element selected for key k is the first element of s with that key. */
  lemma {:induction false} SelectFirst<T>(s: seq<T>, key: T -> real, k: real, m: nat)
    requires m < |s| && key(s[m]) == k
    requires forall j :: 0 <= j < m ==> key(s[j]) != k
    ensures Select(s, key, k) != [] && Select(s, key, k)[0] == s[m]
    decreases |s|
  {
    var t := s[..|s| - 1];
    if m < |s| - 1 {
      SelectFirst(t, key, k, m);
    } else {
      SelectAbsent(t, key, k);
    }
  }

  /**
   * The head of a stable sort is the first element with the smallest key,
   * which is what Python's sorted(...)[0] returns.
   */
  lemma SortByHead<T>(s: seq<T>, key: T -> real, m: nat)
    requires m < |s|
    requires forall j :: 0 <= j < |s| ==> key(s[m]) <= key(s[j])
    requires forall j :: 0 <= j < m ==> key(s[j]) != key(s[m])
    ensures |SortBy(s, key)| == |s| && SortBy(s, key)[0] == s[m]
  {
    var r := SortBy(s, key);
    var k := key(s[m]);
    SortBySorted(s, key);
    SortByPermutation(s, key);
    SortByStable(s, key);
    assert r[0] in multiset(s);
    assert s[m] in multiset(r);
    var i :| 0 <= i < |r| && r[i] == s[m];
    assert key(r[0]) == k by {
      if i > 0 {
        assert key(r[0]) <= key(r[i]);
      }
    }
    SelectFirst(s, key, k, m);
    SelectFirst(r, key, k, 0);
    assert Select(r, key, k) == Select(s, key, k);
  }
}
