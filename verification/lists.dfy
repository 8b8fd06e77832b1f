/**
  The JavaScript array operations the stores and pages rely on, as pure
  functions over `seq`: `filter`, `find`/`findIndex`, `indexOf`, `some`, and
  the stable `sort` with a numeric key (`(a, b) => key(a) - key(b)`; ECMAScript
  requires `Array.prototype.sort` to be stable).

  Each operation has an independent characterisation next to it
  (`IsSelection` for `filter`, `IsFirst` for `find`, `SortedBy` plus `WithKey`
  for the stable sort) and a lemma connecting the two.
 */
module Lists {
  import opened Wrappers

  /* ----------------------------------------------------------------------
     filter
     ---------------------------------------------------------------------- */

  /** `s.filter(p)`: the elements of `s` satisfying `p`, in their order. */
  function Filter<T(!new)>(s: seq<T>, p: T -> bool): (r: seq<T>)
    ensures |r| <= |s|
    ensures forall i :: 0 <= i < |r| ==> p(r[i])
    decreases |s|
  {
    if |s| == 0 then []
    else (if p(s[0]) then [s[0]] else []) + Filter(s[1..], p)
  }

  /** `filter` keeps each passing element as often as it occurs, and drops
      every other element. */
  lemma {:induction false} FilterCounts<T(!new)>(s: seq<T>, p: T -> bool)
    ensures forall x :: multiset(Filter(s, p))[x] == if p(x) then multiset(s)[x] else 0
    ensures forall x :: x in Filter(s, p) <==> x in s && p(x)
    decreases |s|
  {
    if |s| > 0 {
      FilterCounts(s[1..], p);
      assert s == [s[0]] + s[1..];
    }
  }

  /** `r` is obtained from `s` by deleting elements (order is kept). */
  ghost predicate SubseqOf<T(!new)>(r: seq<T>, s: seq<T>)
    decreases |s|
  {
    if |r| == 0 then true
    else if |s| == 0 then false
    else if r[0] == s[0] then SubseqOf(r[1..], s[1..])
    else SubseqOf(r, s[1..])
  }

  /**
    Specification of `filter` that does not mention `Filter`: `r` keeps the
    order of `s`, and holds every element satisfying `p` as often as `s`
    does and no other element.
   */
  ghost predicate IsSelection<T(!new)>(r: seq<T>, s: seq<T>, p: T -> bool) {
    && SubseqOf(r, s)
    && forall x :: multiset(r)[x] == if p(x) then multiset(s)[x] else 0
  }

  lemma {:induction false} FilterConcat<T(!new)>(a: seq<T>, b: seq<T>, p: T -> bool)
    ensures Filter(a + b, p) == Filter(a, p) + Filter(b, p)
    decreases |a|
  {
    if |a| == 0 {
      assert a + b == b;
    } else {
      assert (a + b)[1..] == a[1..] + b;
      FilterConcat(a[1..], b, p);
    }
  }

  lemma {:induction false} FilterIsSubseq<T(!new)>(s: seq<T>, p: T -> bool)
    ensures SubseqOf(Filter(s, p), s)
    decreases |s|
  {
    if |s| > 0 {
      var r, rest := Filter(s, p), Filter(s[1..], p);
      FilterIsSubseq(s[1..], p);
      if p(s[0]) {
        assert r == [s[0]] + rest;
        assert r[1..] == rest;
      } else {
        assert r == rest;
        assert |r| > 0 ==> p(r[0]) && r[0] != s[0];
      }
    }
  }

  /** `Filter` meets the specification `IsSelection`. */
  lemma FilterIsSelection<T(!new)>(s: seq<T>, p: T -> bool)
    ensures IsSelection(Filter(s, p), s, p)
  {
    FilterIsSubseq(s, p);
    FilterCounts(s, p);
  }

  lemma {:induction false} SubseqMultiset<T(!new)>(r: seq<T>, s: seq<T>)
    requires SubseqOf(r, s)
    ensures multiset(r) <= multiset(s)
    decreases |s|
  {
    if |r| > 0 {
      assert s == [s[0]] + s[1..];
      if r[0] == s[0] {
        assert r == [r[0]] + r[1..];
        SubseqMultiset(r[1..], s[1..]);
      } else {
        SubseqMultiset(r, s[1..]);
      }
    }
  }

  /** `IsSelection` determines its result: `Filter` is the only selection. */
  lemma {:induction false} SelectionIsFilter<T(!new)>(r: seq<T>, s: seq<T>, p: T -> bool)
    requires IsSelection(r, s, p)
    ensures r == Filter(s, p)
    decreases |s|
  {
    if |s| == 0 {
      assert multiset(r) == multiset{};
    } else if p(s[0]) {
      SelectionKeepsHead(r, s, p);
      SelectionIsFilter(r[1..], s[1..], p);
      assert r == [r[0]] + r[1..];
    } else {
      SelectionSkipsHead(r, s, p);
      SelectionIsFilter(r, s[1..], p);
    }
  }

  /** A selection of a list whose head passes starts with that head. */
  lemma SelectionKeepsHead<T(!new)>(r: seq<T>, s: seq<T>, p: T -> bool)
    requires IsSelection(r, s, p) && |s| > 0 && p(s[0])
    ensures |r| > 0 && r[0] == s[0] && IsSelection(r[1..], s[1..], p)
  {
    var s0, tail := s[0], s[1..];
    assert s == [s0] + tail;
    assert multiset(r)[s0] > 0;
    assert r == [r[0]] + r[1..];
    if r[0] != s0 {
      SubseqMultiset(r, tail);
      assert false;
    }
    assert forall x :: multiset(r[1..])[x] == if p(x) then multiset(tail)[x] else 0;
  }

  /** A selection of a list whose head fails is a selection of its tail. */
  lemma SelectionSkipsHead<T(!new)>(r: seq<T>, s: seq<T>, p: T -> bool)
    requires IsSelection(r, s, p) && |s| > 0 && !p(s[0])
    ensures IsSelection(r, s[1..], p)
  {
    var s0, tail := s[0], s[1..];
    assert s == [s0] + tail;
    assert s0 !in r;
    assert SubseqOf(r, tail);
    assert forall x :: multiset(r)[x] == if p(x) then multiset(tail)[x] else 0;
  }

  /** `filter` keeps the length exactly when every element passes. */
  lemma {:induction false} FilterKeepsLength<T(!new)>(s: seq<T>, p: T -> bool)
    ensures |Filter(s, p)| == |s| <==> forall i :: 0 <= i < |s| ==> p(s[i])
    decreases |s|
  {
    if |s| > 0 {
      FilterKeepsLength(s[1..], p);
      assert forall i :: 1 <= i < |s| ==> s[i] == s[1..][i - 1];
    }
  }

  function Not<T(!new)>(p: T -> bool): T -> bool {
    x => !p(x)
  }

  lemma {:induction false} FilterAllPass<T(!new)>(s: seq<T>, p: T -> bool)
    requires forall i :: 0 <= i < |s| ==> p(s[i])
    ensures Filter(s, p) == s
    decreases |s|
  {
    if |s| > 0 {
      assert forall i :: 0 <= i < |s[1..]| ==> p(s[1..][i]) by {
        forall i | 0 <= i < |s[1..]| ensures p(s[1..][i]) { assert s[1..][i] == s[i + 1]; }
      }
      FilterAllPass(s[1..], p);
      assert s == [s[0]] + s[1..];
    }
  }

  /**
    `list.filter(x => !p(x))` as the stores use it to delete: it drops
    exactly the matching elements, shrinks the list exactly when one
    matched, and leaves the list as it was otherwise.
   */
  lemma RemovalFacts<T(!new)>(s: seq<T>, p: T -> bool)
    ensures IsSelection(Filter(s, Not(p)), s, Not(p))
    ensures |Filter(s, Not(p))| != |s| <==> Any(s, p)
    ensures !Any(s, p) ==> Filter(s, Not(p)) == s
    ensures !Any(Filter(s, Not(p)), p)
  {
    var kept := Filter(s, Not(p));
    FilterIsSelection(s, Not(p));
    FilterKeepsLength(s, Not(p));
    if !Any(s, p) {
      FilterAllPass(s, Not(p));
    }
    assert forall i :: 0 <= i < |kept| ==> Not(p)(kept[i]);
  }

  lemma {:induction false} FilterNonePass<T(!new)>(s: seq<T>, p: T -> bool)
    requires !Any(s, p)
    ensures Filter(s, p) == []
    decreases |s|
  {
    if |s| > 0 {
      assert !Any(s[1..], p) by {
        forall i | 0 <= i < |s[1..]| ensures !p(s[1..][i]) { assert s[1..][i] == s[i + 1]; }
      }
      FilterNonePass(s[1..], p);
    }
  }

  /** `filter` splits around position `i`. */
  lemma {:induction false} FilterAround<T(!new)>(s: seq<T>, p: T -> bool, i: int)
    requires 0 <= i < |s|
    ensures Filter(s, p) == Filter(s[..i], p) + Filter([s[i]], p) + Filter(s[i + 1..], p)
  {
    var rest := [s[i]] + s[i + 1..];
    assert s == s[..i] + rest;
    FilterConcat(s[..i], rest, p);
    FilterConcat([s[i]], s[i + 1..], p);
  }

  /* ----------------------------------------------------------------------
     find / findIndex / some / indexOf
     ---------------------------------------------------------------------- */

  /** `i` is the index `findIndex(p)` reports: the first element passing `p`. */
  ghost predicate IsFirst<T(!new)>(s: seq<T>, p: T -> bool, i: int) {
    && 0 <= i < |s|
    && p(s[i])
    && forall j :: 0 <= j < i ==> !p(s[j])
  }

  lemma IsFirstUnique<T(!new)>(s: seq<T>, p: T -> bool, i: int, j: int)
    requires IsFirst(s, p, i) && IsFirst(s, p, j)
    ensures i == j
  {
  }

  /** `s.some(p)`. */
  predicate Any<T(!new)>(s: seq<T>, p: T -> bool) {
    exists i :: 0 <= i < |s| && p(s[i])
  }

  /** `s.findIndex(p)`, with `None` for JavaScript's `-1`. */
  function FirstIndex<T(!new)>(s: seq<T>, p: T -> bool): (r: Option<nat>)
    ensures r.Some? ==> IsFirst(s, p, r.value)
    ensures r.None? <==> !Any(s, p)
    decreases |s|
  {
    if |s| == 0 then None
    else if p(s[0]) then Some(0)
    else match FirstIndex(s[1..], p)
      case None => None
      case Some(k) => Some(k + 1)
  }

  /** `s.find(p)`, with `None` for `undefined`. */
  function Find<T(!new)>(s: seq<T>, p: T -> bool): (r: Option<T>)
    ensures r.None? <==> !Any(s, p)
    ensures r.Some? ==> exists i :: IsFirst(s, p, i) && s[i] == r.value
  {
    match FirstIndex(s, p)
    case None => None
    case Some(i) => Some(s[i])
  }

  /** `s.indexOf(x)`: the first position of `x`, or -1. */
  function IndexOf<T(==)>(s: seq<T>, x: T): (r: int)
    ensures r == -1 <==> x !in s
    ensures r != -1 ==> 0 <= r < |s| && s[r] == x && x !in s[..r]
    decreases |s|
  {
    if |s| == 0 then -1
    else if s[0] == x then 0
    else
      var k := IndexOf(s[1..], x);
      assert s == [s[0]] + s[1..];
      if k == -1 then -1
      else
        assert s[..k + 1] == [s[0]] + s[1..][..k];
        k + 1
  }

  /* ----------------------------------------------------------------------
     stable sort by an integer key
     ---------------------------------------------------------------------- */

  ghost predicate SortedBy<T(!new)>(s: seq<T>, key: T -> int) {
    forall i, j :: 0 <= i < j < |s| ==> key(s[i]) <= key(s[j])
  }

  function KeyIs<T(!new)>(key: T -> int, k: int): T -> bool {
    x => key(x) == k
  }

  /** The elements whose key is `k`, in order. A sort is stable exactly when
      this subsequence is the same before and after, for every `k`. */
  function WithKey<T(!new)>(s: seq<T>, key: T -> int, k: int): seq<T> {
    Filter(s, KeyIs(key, k))
  }

  /** One step of insertion sort: `x` goes after every element whose key is
      not larger than its own. */
  function Insert<T(!new)>(s: seq<T>, x: T, key: T -> int): (r: seq<T>)
    ensures multiset(r) == multiset(s) + multiset{x}
    ensures |r| == |s| + 1
    decreases |s|
  {
    if |s| == 0 then [x]
    else if key(x) < key(s[|s| - 1]) then
      assert s == s[..|s| - 1] + [s[|s| - 1]];
      Insert(s[..|s| - 1], x, key) + [s[|s| - 1]]
    else s + [x]
  }

  lemma {:induction false} InsertSorted<T(!new)>(s: seq<T>, x: T, key: T -> int)
    requires SortedBy(s, key)
    ensures SortedBy(Insert(s, x, key), key)
    decreases |s|
  {
    if |s| > 0 && key(x) < key(s[|s| - 1]) {
      var init, last := s[..|s| - 1], s[|s| - 1];
      var r' := Insert(init, x, key);
      InsertSorted(init, x, key);
      forall y | y in r'
        ensures key(y) <= key(last)
      {
        assert y in multiset(r');
        if y != x {
          assert y in multiset(init);
          var i :| 0 <= i < |init| && init[i] == y;
          assert s[i] == y;
        }
      }
      assert forall i :: 0 <= i < |r'| ==> r'[i] in r';
    }
  }

  lemma WithKeySingleton<T(!new)>(y: T, key: T -> int, k: int)
    ensures WithKey([y], key, k) == if key(y) == k then [y] else []
  {
    assert [y][1..] == [];
  }

  lemma {:induction false} InsertStable<T(!new)>(s: seq<T>, x: T, key: T -> int, k: int)
    ensures WithKey(Insert(s, x, key), key, k) == WithKey(s, key, k) + WithKey([x], key, k)
    decreases |s|
  {
    if |s| == 0 {
      assert Insert(s, x, key) == [x];
      assert WithKey(s, key, k) == [];
    } else if key(x) < key(s[|s| - 1]) {
      var init, last := s[..|s| - 1], s[|s| - 1];
      assert s == init + [last];
      assert Insert(s, x, key) == Insert(init, x, key) + [last];
      InsertStable(init, x, key, k);
      InsertStableStep(Insert(init, x, key), init, last, x, key, k);
    } else {
      assert Insert(s, x, key) == s + [x];
      FilterConcat(s, [x], KeyIs(key, k));
    }
  }

  /** The step of `InsertStable` where `x` moves in front of `last`: the two
      cannot share the key `k`, so their order does not matter to it. */
  lemma InsertStableStep<T(!new)>(a: seq<T>, init: seq<T>, last: T, x: T, key: T -> int, k: int)
    requires key(x) < key(last)
    requires WithKey(a, key, k) == WithKey(init, key, k) + WithKey([x], key, k)
    ensures WithKey(a + [last], key, k) == WithKey(init + [last], key, k) + WithKey([x], key, k)
  {
    var p := KeyIs(key, k);
    var wi, wx, wl := WithKey(init, key, k), WithKey([x], key, k), WithKey([last], key, k);
    FilterConcat(a, [last], p);
    FilterConcat(init, [last], p);
    WithKeySingleton(x, key, k);
    WithKeySingleton(last, key, k);
    if wx == [] {
      assert (wi + wx) + wl == wi + wl == (wi + wl) + wx;
    } else {
      assert wl == [];
      assert (wi + wx) + wl == wi + wx == (wi + wl) + wx;
    }
  }

  /** Insertion sort by `key`, the model of `sort((a, b) => key(a) - key(b))`:
      a permutation, ascending, and stable. */
  function SortBy<T(!new)>(s: seq<T>, key: T -> int): (r: seq<T>)
    ensures multiset(r) == multiset(s)
    ensures |r| == |s|
    ensures SortedBy(r, key)
    ensures forall k :: WithKey(r, key, k) == WithKey(s, key, k)
    decreases |s|
  {
    if |s| == 0 then []
    else
      var init, last := s[..|s| - 1], s[|s| - 1];
      var sorted := SortBy(init, key);
      assert s == init + [last];
      InsertSorted(sorted, last, key);
      assert forall k :: WithKey(Insert(sorted, last, key), key, k) == WithKey(s, key, k) by {
        forall k
          ensures WithKey(Insert(sorted, last, key), key, k) == WithKey(s, key, k)
        {
          InsertStable(sorted, last, key, k);
          FilterConcat(init, [last], KeyIs(key, k));
        }
      }
      Insert(sorted, last, key)
  }

  /** An element whose key is at least every other key sorts to the end. */
  lemma SortAppendLargest<T(!new)>(s: seq<T>, x: T, key: T -> int)
    requires forall i :: 0 <= i < |s| ==> key(s[i]) <= key(x)
    ensures SortBy(s + [x], key) == SortBy(s, key) + [x]
  {
    var sorted := SortBy(s, key);
    assert (s + [x])[..|s|] == s;
    if |sorted| > 0 {
      var last := sorted[|sorted| - 1];
      assert last in multiset(sorted);
      assert last in s;
    }
  }

  /** Replacing the first match by another match keeps it the first match. */
  lemma FindAfterReplaceFirst<T(!new)>(s: seq<T>, p: T -> bool, i: int, x: T)
    requires IsFirst(s, p, i) && p(x)
    ensures Find(s[i := x], p) == Some(x)
  {
    var s' := s[i := x];
    assert IsFirst(s', p, i);
    var j :| IsFirst(s', p, j) && s'[j] == Find(s', p).value;
    IsFirstUnique(s', p, i, j);
  }

  /* ----------------------------------------------------------------------
     filter, then sort
     ---------------------------------------------------------------------- */

  /**
    What `s.filter(keep).sort((a, b) => key(a) - key(b))` returns: a
    permutation of the kept elements, ascending by `key`, with elements of
    equal key in their original order.
   */
  ghost predicate IsFilterSort<T(!new)>(r: seq<T>, s: seq<T>, keep: T -> bool, key: T -> int) {
    && (forall x :: multiset(r)[x] == if keep(x) then multiset(s)[x] else 0)
    && SortedBy(r, key)
    && forall k :: WithKey(r, key, k) == WithKey(Filter(s, keep), key, k)
  }

  function FilterSortBy<T(!new)>(s: seq<T>, keep: T -> bool, key: T -> int): (r: seq<T>)
    ensures IsFilterSort(r, s, keep, key)
    ensures forall i :: 0 <= i < |r| ==> keep(r[i]) && r[i] in s
  {
    var r := SortBy(Filter(s, keep), key);
    FilterSortCounts(s, keep, key);
    FilterSortMembers(s, keep, key);
    r
  }

  lemma FilterSortCounts<T(!new)>(s: seq<T>, keep: T -> bool, key: T -> int)
    ensures var r := SortBy(Filter(s, keep), key);
            forall x :: multiset(r)[x] == if keep(x) then multiset(s)[x] else 0
  {
    FilterCounts(s, keep);
  }

  lemma FilterSortMembers<T(!new)>(s: seq<T>, keep: T -> bool, key: T -> int)
    ensures var r := SortBy(Filter(s, keep), key);
            forall i :: 0 <= i < |r| ==> keep(r[i]) && r[i] in s
  {
    var f := Filter(s, keep);
    var r := SortBy(f, key);
    FilterCounts(s, keep);
    forall i | 0 <= i < |r|
      ensures keep(r[i]) && r[i] in s
    {
      assert r[i] in multiset(r);
      assert r[i] in f;
    }
  }

  /** Sorting a list that is already in order changes nothing. */
  lemma {:induction false} SortBySorted<T(!new)>(s: seq<T>, key: T -> int)
    requires SortedBy(s, key)
    ensures SortBy(s, key) == s
    decreases |s|
  {
    if |s| > 0 {
      var init := s[..|s| - 1];
      assert SortedBy(init, key);
      SortBySorted(init, key);
      assert s == init + [s[|s| - 1]];
    }
  }

  /** When every element is kept and they are already in order, the
      filter-then-sort gives the list back. */
  lemma FilterSortByIdentity<T(!new)>(s: seq<T>, keep: T -> bool, key: T -> int)
    requires forall i :: 0 <= i < |s| ==> keep(s[i])
    requires SortedBy(s, key)
    ensures FilterSortBy(s, keep, key) == s
  {
    FilterAllPass(s, keep);
    SortBySorted(s, key);
  }

  /** When exactly the first `n` elements pass, `filter` keeps that prefix. */
  lemma {:induction false} FilterPrefix<T(!new)>(s: seq<T>, p: T -> bool, n: int)
    requires 0 <= n <= |s|
    requires forall i :: 0 <= i < n ==> p(s[i])
    requires forall i :: n <= i < |s| ==> !p(s[i])
    ensures Filter(s, p) == s[..n]
  {
    var front, back := s[..n], s[n..];
    assert s == front + back;
    FilterConcat(front, back, p);
    forall i | 0 <= i < |front| ensures p(front[i]) { assert front[i] == s[i]; }
    FilterAllPass(front, p);
    forall i | 0 <= i < |back| ensures !p(back[i]) { assert back[i] == s[n + i]; }
    FilterNonePass(back, p);
  }
}
