/** The collection operations the views apply to their query results:
    Swift's `filter`, `map { … }.reduce(0, +)` and `sorted(by:)`, and the
    resolution of the row offsets a list deletion reports. */
module Seqs {

  /** `s.filter(p)`: the elements of `s` that satisfy `p`, in their order. */
  function Filter<T(!new)>(s: seq<T>, p: T -> bool): (r: seq<T>)
    ensures |r| <= |s|
    ensures forall x :: x in r <==> x in s && p(x)
  {
    if s == [] then []
    else
      assert s == s[..|s| - 1] + [s[|s| - 1]];
      var init := Filter(s[..|s| - 1], p);
      if p(s[|s| - 1]) then init + [s[|s| - 1]] else init
  }

  /** `s.map(f).reduce(0, +)` */
  function SumOf<T>(s: seq<T>, f: T -> int): int
  {
    if s == [] then 0 else SumOf(s[..|s| - 1], f) + f(s[|s| - 1])
  }

  lemma {:induction false} SumOfAppend<T>(a: seq<T>, b: seq<T>, f: T -> int)
    ensures SumOf(a + b, f) == SumOf(a, f) + SumOf(b, f)
    decreases |b|
  {
    if b == [] {
      assert a + b == a;
    } else {
      var b' := b[..|b| - 1];
      assert (a + b)[..|a + b| - 1] == a + b';
      SumOfAppend(a, b', f);
    }
  }

  lemma {:induction false} FilterAppend<T(!new)>(a: seq<T>, b: seq<T>, p: T -> bool)
    ensures Filter(a + b, p) == Filter(a, p) + Filter(b, p)
    decreases |b|
  {
    if b == [] {
      assert a + b == a;
    } else {
      var b' := b[..|b| - 1];
      assert (a + b)[..|a + b| - 1] == a + b';
      FilterAppend(a, b', p);
    }
  }

  /** A filter keeps every copy of an element that passes and no copy of
      one that does not. */
  lemma {:induction false} FilterCount<T(!new)>(s: seq<T>, p: T -> bool)
    ensures forall x :: multiset(Filter(s, p))[x] == (if p(x) then multiset(s)[x] else 0)
    decreases |s|
  {
    if s != [] {
      var init, last := s[..|s| - 1], s[|s| - 1];
      FilterCount(init, p);
      assert s == init + [last];
      assert multiset(s) == multiset(init) + multiset{last};
    }
  }

  /** Filters by two tests that agree on every element keep the same elements. */
  lemma {:induction false} FilterAgrees<T(!new)>(s: seq<T>, p: T -> bool, q: T -> bool)
    requires forall x :: p(x) == q(x)
    ensures Filter(s, p) == Filter(s, q)
    decreases |s|
  {
    if s != [] {
      FilterAgrees(s[..|s| - 1], p, q);
    }
  }

  /** A filter of two elements. */
  lemma FilterPair<T(!new)>(a: T, b: T, p: T -> bool)
    ensures Filter([a, b], p) == (if p(a) then [a] else []) + (if p(b) then [b] else [])
  {
    assert [a, b][..1] == [a];
    assert [a][..0] == [];
  }

  /** A filter that no element passes leaves nothing. */
  lemma {:induction false} FilterNone<T(!new)>(s: seq<T>, p: T -> bool)
    requires forall x :: x in s ==> !p(x)
    ensures Filter(s, p) == []
    decreases |s|
  {
    if s != [] {
      assert forall x :: x in s[..|s| - 1] ==> x in s;
      FilterNone(s[..|s| - 1], p);
    }
  }

  /** Filtering by `p` and then by `q` keeps exactly what one filter by
      "`p` and `q`" keeps, in the same order. */
  lemma {:induction false} FilterFilter<T(!new)>(s: seq<T>, p: T -> bool, q: T -> bool, pq: T -> bool)
    requires forall x :: pq(x) == (p(x) && q(x))
    ensures Filter(Filter(s, p), q) == Filter(s, pq)
    decreases |s|
  {
    if s != [] {
      var init, last := s[..|s| - 1], s[|s| - 1];
      FilterFilter(init, p, q, pq);
      if p(last) {
        FilterAppend(Filter(init, p), [last], q);
      }
    }
  }

  /** Every element of `s` ranks no higher than the ones after it. */
  ghost predicate SortedBy<T>(s: seq<T>, rank: T -> int)
  {
    forall i, j :: 0 <= i < j < |s| ==> rank(s[i]) <= rank(s[j])
  }

  /** Places `x` into the sorted `s` in front of the first element that
      ranks at least as high. */
  function Insert<T(!new)>(x: T, s: seq<T>, rank: T -> int): (r: seq<T>)
    requires SortedBy(s, rank)
    ensures SortedBy(r, rank)
    ensures multiset(r) == multiset(s) + multiset{x}
  {
    if s == [] then [x]
    else if rank(x) <= rank(s[0]) then
      SortedHead(s, rank);
      SortedCons(x, s, rank);
      [x] + s
    else
      SortedHead(s, rank);
      var tail := s[1..];
      var rest := Insert(x, tail, rank);
      BoundAppended(s, x, rank);
      LowerBoundOfPermutation(s[0], rest, tail + [x], rank);
      SortedCons(s[0], rest, rank);
      assert s == [s[0]] + tail;
      [s[0]] + rest
  }

  /** The head of a sorted sequence bounds it, and its tail is sorted. */
  lemma SortedHead<T>(s: seq<T>, rank: T -> int)
    requires s != [] && SortedBy(s, rank)
    ensures forall k :: 0 <= k < |s| ==> rank(s[0]) <= rank(s[k])
    ensures SortedBy(s[1..], rank)
  {
    var t := s[1..];
    forall i, j | 0 <= i < j < |t|
      ensures rank(t[i]) <= rank(t[j])
    {
      assert t[i] == s[i + 1] && t[j] == s[j + 1];
    }
  }

  /** What bounds a sequence bounds its tail with one more, larger element. */
  lemma BoundAppended<T>(s: seq<T>, x: T, rank: T -> int)
    requires s != [] && forall k :: 0 <= k < |s| ==> rank(s[0]) <= rank(s[k])
    requires rank(s[0]) <= rank(x)
    ensures forall k :: 0 <= k < |s[1..] + [x]| ==> rank(s[0]) <= rank((s[1..] + [x])[k])
  {
    var t := s[1..] + [x];
    forall k | 0 <= k < |t|
      ensures rank(s[0]) <= rank(t[k])
    {
      if k < |s| - 1 { assert t[k] == s[k + 1]; }
    }
  }

  /** A lower bound of every element of `others` bounds any rearrangement of it. */
  lemma LowerBoundOfPermutation<T>(a: T, rest: seq<T>, others: seq<T>, rank: T -> int)
    requires multiset(rest) == multiset(others)
    requires forall k :: 0 <= k < |others| ==> rank(a) <= rank(others[k])
    ensures forall k :: 0 <= k < |rest| ==> rank(a) <= rank(rest[k])
  {
    forall k | 0 <= k < |rest|
      ensures rank(a) <= rank(rest[k])
    {
      assert rest[k] in multiset(others);
      var m :| 0 <= m < |others| && others[m] == rest[k];
    }
  }

  lemma SortedCons<T>(a: T, rest: seq<T>, rank: T -> int)
    requires SortedBy(rest, rank)
    requires forall k :: 0 <= k < |rest| ==> rank(a) <= rank(rest[k])
    ensures SortedBy([a] + rest, rank)
  {
    var r := [a] + rest;
    forall i, j | 0 <= i < j < |r|
      ensures rank(r[i]) <= rank(r[j])
    {
      assert r[j] == rest[j - 1];
      if i > 0 { assert r[i] == rest[i - 1]; }
    }
  }

  /** `s.sorted { rank($0) < rank($1) }`: a permutation of `s` in
      non-decreasing rank. Which of several equally ranked elements comes
      first is not part of the contract (Swift's sort is not stable). */
  function SortBy<T(!new)>(s: seq<T>, rank: T -> int): (r: seq<T>)
    ensures SortedBy(r, rank)
    ensures multiset(r) == multiset(s)
  {
    if s == [] then []
    else
      assert s == [s[0]] + s[1..];
      Insert(s[0], SortBy(s[1..], rank), rank)
  }

  /** A rearrangement has the same elements. */
  lemma SameElements<T>(a: seq<T>, b: seq<T>)
    requires multiset(a) == multiset(b)
    ensures forall x :: x in a <==> x in b
  {
    forall x
      ensures x in a <==> x in b
    {
      assert x in a <==> x in multiset(a);
      assert x in b <==> x in multiset(b);
    }
  }

  predicate StrictlyIncreasing(s: seq<nat>)
  {
    forall i, j :: 0 <= i < j < |s| ==> s[i] < s[j]
  }

  /** Foundation's `IndexSet`: a set of offsets, enumerated in increasing order. */
  type IndexSet = s: seq<nat> | StrictlyIncreasing(s) witness []

  /** `idx` places the elements of `a` at increasing positions of `b`. */
  ghost predicate Embeds<T>(idx: IndexSet, a: seq<T>, b: seq<T>)
  {
    |idx| == |a| && forall j :: 0 <= j < |a| ==> idx[j] < |b| && a[j] == b[idx[j]]
  }

  /** `a` is `b` with some elements left out and the rest kept in order. */
  ghost predicate IsSubsequence<T>(a: seq<T>, b: seq<T>)
  {
    exists idx: IndexSet :: Embeds(idx, a, b)
  }

  /** A filter drops elements but never reorders the ones it keeps. */
  lemma {:induction false} FilterIsSubsequence<T(!new)>(s: seq<T>, p: T -> bool)
    ensures IsSubsequence(Filter(s, p), s)
  {
    var idx := FilterPositions(s, p);
  }

  lemma {:induction false} FilterPositions<T(!new)>(s: seq<T>, p: T -> bool) returns (idx: IndexSet)
    ensures Embeds(idx, Filter(s, p), s)
    ensures forall j :: 0 <= j < |idx| ==> idx[j] < |s|
    decreases |s|
  {
    if s == [] {
      idx := [];
    } else {
      var init := s[..|s| - 1];
      var prev := FilterPositions(init, p);
      if p(s[|s| - 1]) {
        var next := prev + [|s| - 1];
        assert StrictlyIncreasing(next);
        idx := next;
      } else {
        idx := prev;
      }
    }
  }

  /** The elements a deletion at `offsets` removes from `list`:
      `for index in offsets { delete(list[index]) }`, in that order.
      An offset past the end traps in the source, so callers pass offsets
      within the list. */
  method ResolveOffsets<T>(list: seq<T>, offsets: IndexSet) returns (picked: seq<T>)
    requires forall j :: 0 <= j < |offsets| ==> offsets[j] < |list|
    ensures Embeds(offsets, picked, list)
    ensures IsSubsequence(picked, list)
  {
    picked := [];
    for j := 0 to |offsets|
      invariant |picked| == j
      invariant forall k :: 0 <= k < j ==> picked[k] == list[offsets[k]]
    {
      picked := picked + [list[offsets[j]]];
    }
    assert Embeds(offsets, picked, list);
  }
}
