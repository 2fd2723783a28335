/** What the analytics screen's `var dict` loops compute: a fold of a list
    into per-key sums, read back as summary rows. Stated once, generically
    in the element type, the key and the amount each element contributes. */
module Grouping {
  import opened Seqs

  /** `SummaryRow`: a group's key, its display name and its signed total. */
  datatype SummaryRow<K> = SummaryRow(key: K, name: string, totalCents: int)

  /** The keys that occur in `s`. */
  function Keys<T, K>(s: seq<T>, key: T -> K): set<K>
  {
    if s == [] then {} else Keys(s[..|s| - 1], key) + {key(s[|s| - 1])}
  }

  /** The sum of `val` over the elements of `s` whose key is `k`. */
  function TotalFor<T, K(==)>(s: seq<T>, key: T -> K, val: T -> int, k: K): int
  {
    if s == [] then 0
    else TotalFor(s[..|s| - 1], key, val, k) + (if key(s[|s| - 1]) == k then val(s[|s| - 1]) else 0)
  }

  /** The label of the last element of `s` with key `k`: the value a
      dictionary slot holds after a loop that overwrites it every time. */
  function LastLabel<T, K(==)>(s: seq<T>, key: T -> K, labelOf: T -> string, k: K): string
  {
    if s == [] then ""
    else if key(s[|s| - 1]) == k then labelOf(s[|s| - 1])
    else LastLabel(s[..|s| - 1], key, labelOf, k)
  }

  /** `s` without the elements whose key is `k`. */
  function Without<T, K(==)>(s: seq<T>, key: T -> K, k: K): seq<T>
  {
    if s == [] then []
    else
      var init := Without(s[..|s| - 1], key, k);
      if key(s[|s| - 1]) == k then init else init + [s[|s| - 1]]
  }

  /** The sum of the rows' totals. */
  function SumTotals<K>(rows: seq<SummaryRow<K>>): int
  {
    if rows == [] then 0 else rows[0].totalCents + SumTotals(rows[1..])
  }

  ghost predicate DistinctKeys<K>(rows: seq<SummaryRow<K>>)
  {
    forall i, j :: 0 <= i < j < |rows| ==> rows[i].key != rows[j].key
  }

  /** `rows` holds one row per key occurring in `s`, and no other row, and
      each row's total is the sum of its key's contributions. */
  ghost predicate IsGrouping<T, K(!new)>(rows: seq<SummaryRow<K>>, s: seq<T>, key: T -> K, val: T -> int)
  {
    && DistinctKeys(rows)
    && (forall r :: r in rows ==> r.key in Keys(s, key) && r.totalCents == TotalFor(s, key, val, r.key))
    && (forall k :: k in Keys(s, key) ==> exists r :: r in rows && r.key == k)
  }

  /** How the keys and totals change when one more element is processed. */
  lemma PrefixStep<T, K>(s: seq<T>, i: nat, key: T -> K, val: T -> int)
    requires i < |s|
    ensures Keys(s[..i + 1], key) == Keys(s[..i], key) + {key(s[i])}
    ensures forall k ::
      TotalFor(s[..i + 1], key, val, k) == TotalFor(s[..i], key, val, k) + (if key(s[i]) == k then val(s[i]) else 0)
  {
    var t := s[..i + 1];
    assert t[..|t| - 1] == s[..i] && t[|t| - 1] == s[i];
  }

  /** How the last label of each key changes when one more element is processed. */
  lemma LabelStep<T, K>(s: seq<T>, i: nat, key: T -> K, labelOf: T -> string)
    requires i < |s|
    ensures forall k ::
      LastLabel(s[..i + 1], key, labelOf, k) == (if key(s[i]) == k then labelOf(s[i]) else LastLabel(s[..i], key, labelOf, k))
  {
    var t := s[..i + 1];
    assert t[..|t| - 1] == s[..i] && t[|t| - 1] == s[i];
    forall k
      ensures LastLabel(t, key, labelOf, k) == (if key(s[i]) == k then labelOf(s[i]) else LastLabel(s[..i], key, labelOf, k))
    {
    }
  }

  /** `dict` holds, for each key occurring in `s`, the sum of its
      contributions: the state of a `dict[key] = (dict[key] ?? 0) + value`
      loop after it has processed `s`. */
  ghost predicate Folds<T, K(!new)>(dict: map<K, int>, s: seq<T>, key: T -> K, val: T -> int)
  {
    && dict.Keys == Keys(s, key)
    && forall k :: k in dict ==> dict[k] == TotalFor(s, key, val, k)
  }

  /** As `Folds`, for a loop that also stores the label of the element
      it processed last for the key. */
  ghost predicate FoldsNamed<T, K(!new)>(dict: map<K, (string, int)>, s: seq<T>, key: T -> K, val: T -> int, labelOf: T -> string)
  {
    && dict.Keys == Keys(s, key)
    && forall k :: k in dict ==> dict[k].0 == LastLabel(s, key, labelOf, k) && dict[k].1 == TotalFor(s, key, val, k)
  }

  /** One loop iteration keeps `Folds`. */
  lemma FoldStep<T, K(!new)>(dict: map<K, int>, s: seq<T>, i: nat, key: T -> K, val: T -> int)
    requires i < |s| && Folds(dict, s[..i], key, val)
    ensures Folds(dict[key(s[i]) := (if key(s[i]) in dict then dict[key(s[i])] else 0) + val(s[i])], s[..i + 1], key, val)
  {
    PrefixStep(s, i, key, val);
    if key(s[i]) !in dict {
      TotalForAbsent(s[..i], key, val, key(s[i]));
    }
  }

  /** One loop iteration keeps `FoldsNamed`. */
  lemma FoldNamedStep<T, K(!new)>(dict: map<K, (string, int)>, s: seq<T>, i: nat, key: T -> K, val: T -> int, labelOf: T -> string)
    requires i < |s| && FoldsNamed(dict, s[..i], key, val, labelOf)
    ensures FoldsNamed(dict[key(s[i]) := (labelOf(s[i]), (if key(s[i]) in dict then dict[key(s[i])].1 else 0) + val(s[i]))],
      s[..i + 1], key, val, labelOf)
  {
    PrefixStep(s, i, key, val);
    LabelStep(s, i, key, labelOf);
    if key(s[i]) !in dict {
      TotalForAbsent(s[..i], key, val, key(s[i]));
    }
  }

  /** Rows read off a folded dictionary, one per entry, form a grouping. */
  lemma FoldedGrouping<T, K(!new)>(dict: map<K, int>, rows: seq<SummaryRow<K>>, s: seq<T>, key: T -> K, val: T -> int)
    requires Folds(dict, s, key, val) && DistinctKeys(rows)
    requires forall r :: r in rows ==> r.key in dict && r.totalCents == dict[r.key]
    requires forall k :: k in dict ==> exists r :: r in rows && r.key == k
    ensures IsGrouping(rows, s, key, val)
  {
  }

  lemma FoldedNamedGrouping<T, K(!new)>(dict: map<K, (string, int)>, rows: seq<SummaryRow<K>>, s: seq<T>, key: T -> K, val: T -> int, labelOf: T -> string)
    requires FoldsNamed(dict, s, key, val, labelOf) && DistinctKeys(rows)
    requires forall r :: r in rows ==> r.key in dict && r.name == dict[r.key].0 && r.totalCents == dict[r.key].1
    requires forall k :: k in dict ==> exists r :: r in rows && r.key == k
    ensures IsGrouping(rows, s, key, val)
    ensures forall r :: r in rows ==> r.name == LastLabel(s, key, labelOf, r.key)
  {
  }

  /** Splitting off one key: its total plus the sum of the rest is the
      sum of everything, and the other keys keep their totals. */
  lemma SplitOff<T, K>(s: seq<T>, key: T -> K, val: T -> int, k0: K)
    ensures SumOf(s, val) == TotalFor(s, key, val, k0) + SumOf(Without(s, key, k0), val)
    ensures Keys(Without(s, key, k0), key) == Keys(s, key) - {k0}
    ensures forall k :: k != k0 ==> TotalFor(Without(s, key, k0), key, val, k) == TotalFor(s, key, val, k)
  {
    SplitOffSum(s, key, val, k0);
    SplitOffKeys(s, key, k0);
    forall k | k != k0
      ensures TotalFor(Without(s, key, k0), key, val, k) == TotalFor(s, key, val, k)
    {
      SplitOffTotal(s, key, val, k0, k);
    }
  }

  /** `Without` of a nonempty sequence, one element at a time. */
  lemma WithoutStep<T, K>(s: seq<T>, key: T -> K, k0: K)
    requires s != []
    ensures var w := Without(s[..|s| - 1], key, k0);
      key(s[|s| - 1]) != k0 ==> (Without(s, key, k0) == w + [s[|s| - 1]] && (w + [s[|s| - 1]])[..|w|] == w)
  {
  }

  lemma {:induction false} SplitOffSum<T, K>(s: seq<T>, key: T -> K, val: T -> int, k0: K)
    ensures SumOf(s, val) == TotalFor(s, key, val, k0) + SumOf(Without(s, key, k0), val)
    decreases |s|
  {
    if s != [] {
      SplitOffSum(s[..|s| - 1], key, val, k0);
      WithoutStep(s, key, k0);
    }
  }

  lemma {:induction false} SplitOffKeys<T, K>(s: seq<T>, key: T -> K, k0: K)
    ensures Keys(Without(s, key, k0), key) == Keys(s, key) - {k0}
    decreases |s|
  {
    if s != [] {
      SplitOffKeys(s[..|s| - 1], key, k0);
      WithoutStep(s, key, k0);
    }
  }

  lemma {:induction false} SplitOffTotal<T, K>(s: seq<T>, key: T -> K, val: T -> int, k0: K, k: K)
    requires k != k0
    ensures TotalFor(Without(s, key, k0), key, val, k) == TotalFor(s, key, val, k)
    decreases |s|
  {
    if s != [] {
      SplitOffTotal(s[..|s| - 1], key, val, k0, k);
      WithoutStep(s, key, k0);
    }
  }

  lemma KeysEmpty<T, K>(s: seq<T>, key: T -> K)
    ensures Keys(s, key) == {} <==> s == []
  {
    if s != [] {
      assert key(s[|s| - 1]) in Keys(s, key);
    }
  }

  /** The rows of a grouping add up to the sum over all grouped elements:
      grouping neither loses nor double-counts an amount. */
  lemma {:induction false} SumOfGroups<T, K(!new)>(rows: seq<SummaryRow<K>>, s: seq<T>, key: T -> K, val: T -> int)
    requires IsGrouping(rows, s, key, val)
    ensures SumTotals(rows) == SumOf(s, val)
    decreases |rows|
  {
    if rows == [] {
      KeysEmpty(s, key);
    } else {
      var k0 := rows[0].key;
      var s' := Without(s, key, k0);
      var rows' := rows[1..];
      SplitOff(s, key, val, k0);
      assert rows[0] in rows;
      forall r | r in rows'
        ensures r.key in Keys(s', key) && r.totalCents == TotalFor(s', key, val, r.key)
      {
        var i :| 1 <= i < |rows| && rows[i] == r;
        assert rows[i] in rows;
      }
      forall k | k in Keys(s', key)
        ensures exists r :: r in rows' && r.key == k
      {
        var r :| r in rows && r.key == k;
        var i :| 0 <= i < |rows| && rows[i] == r;
        assert rows[i] in rows';
      }
      assert DistinctKeys(rows');
      SumOfGroups(rows', s', key, val);
    }
  }

  /** A grouping has no rows exactly when there was nothing to group. */
  lemma GroupingEmptyIff<T, K(!new)>(rows: seq<SummaryRow<K>>, s: seq<T>, key: T -> K, val: T -> int)
    requires IsGrouping(rows, s, key, val)
    ensures rows == [] <==> s == []
  {
    KeysEmpty(s, key);
    if rows != [] {
      assert rows[0] in rows;
    }
  }

  lemma {:induction false} TwoCopies<T>(s: seq<T>, i: nat, j: nat)
    requires i < j < |s| && s[i] == s[j]
    ensures multiset(s)[s[i]] >= 2
  {
    assert s == s[..j] + s[j..];
    assert s[i] in s[..j];
    assert s[j] in s[j..];
  }

  lemma {:induction false} TwoPositions<T>(s: seq<T>, x: T) returns (i: nat, j: nat)
    requires multiset(s)[x] >= 2
    ensures i < j < |s| && s[i] == x && s[j] == x
    decreases |s|
  {
    assert s == [s[0]] + s[1..];
    if s[0] == x {
      assert x in multiset(s[1..]);
      var k :| 0 <= k < |s[1..]| && s[1..][k] == x;
      i, j := 0, k + 1;
    } else {
      var i', j' := TwoPositions(s[1..], x);
      i, j := i' + 1, j' + 1;
    }
  }

  /** Rearranging rows keeps their keys distinct. */
  lemma PermutationKeepsDistinctKeys<K>(rows: seq<SummaryRow<K>>, rows': seq<SummaryRow<K>>)
    requires DistinctKeys(rows) && multiset(rows) == multiset(rows')
    ensures DistinctKeys(rows')
  {
    forall i, j | 0 <= i < j < |rows'|
      ensures rows'[i].key != rows'[j].key
    {
      if rows'[i] == rows'[j] {
        TwoCopies(rows', i, j);
        var p, q := TwoPositions(rows, rows'[i]);
      } else {
        assert rows'[i] in multiset(rows) && rows'[j] in multiset(rows);
        var p :| 0 <= p < |rows| && rows[p] == rows'[i];
        var q :| 0 <= q < |rows| && rows[q] == rows'[j];
        assert p != q;
      }
    }
  }

  /** Sorting a grouping's rows gives a grouping of the same elements. */
  lemma PermutationKeepsGrouping<T, K(!new)>(rows: seq<SummaryRow<K>>, rows': seq<SummaryRow<K>>, s: seq<T>, key: T -> K, val: T -> int)
    requires IsGrouping(rows, s, key, val) && multiset(rows) == multiset(rows')
    ensures IsGrouping(rows', s, key, val)
  {
    PermutationKeepsDistinctKeys(rows, rows');
    forall r | r in rows
      ensures r in rows'
    {
      assert r in multiset(rows');
    }
    forall r | r in rows'
      ensures r in rows
    {
      assert r in multiset(rows);
    }
  }

  /** Sorting a grouping's rows by any rank keeps it a grouping with the
      same rows, empty exactly when there was nothing to group. */
  lemma SortedGrouping<T, K(!new)>(rows: seq<SummaryRow<K>>, s: seq<T>, key: T -> K, val: T -> int, rank: SummaryRow<K> -> int)
    requires IsGrouping(rows, s, key, val)
    ensures IsGrouping(SortBy(rows, rank), s, key, val)
    ensures forall r :: r in SortBy(rows, rank) <==> r in rows
    ensures SortBy(rows, rank) == [] <==> s == []
  {
    var sorted := SortBy(rows, rank);
    PermutationKeepsGrouping(rows, sorted, s, key, val);
    SameElements(rows, sorted);
    GroupingEmptyIff(sorted, s, key, val);
  }

  /** A key that never occurs has nothing summed under it. */
  lemma {:induction false} TotalForAbsent<T, K>(s: seq<T>, key: T -> K, val: T -> int, k: K)
    requires k !in Keys(s, key)
    ensures TotalFor(s, key, val, k) == 0
    decreases |s|
  {
    if s != [] {
      TotalForAbsent(s[..|s| - 1], key, val, k);
    }
  }

  /** When one key is all there is, a grouping is one row holding the sum of everything. */
  lemma SingleKeyGrouping<T, K(!new)>(rows: seq<SummaryRow<K>>, s: seq<T>, key: T -> K, val: T -> int, k: K)
    requires IsGrouping(rows, s, key, val) && Keys(s, key) == {k}
    ensures |rows| == 1 && rows[0].key == k && rows[0].totalCents == SumOf(s, val)
  {
    var r :| r in rows && r.key == k;
    assert rows[0] in rows;
    SumOfGroups(rows, s, key, val);
  }

  /** The state of a loop that moves the entries of `m` one at a time
      from `rest` into `entries`. */
  ghost predicate Listed<K(!new), V>(entries: seq<(K, V)>, rest: map<K, V>, m: map<K, V>)
  {
    && (forall k :: k in rest ==> k in m && rest[k] == m[k])
    && (forall j :: 0 <= j < |entries| ==> entries[j].0 in m && entries[j].0 !in rest && m[entries[j].0] == entries[j].1)
    && (forall k :: k in m ==> k in rest || exists j :: 0 <= j < |entries| && entries[j].0 == k)
    && (forall i, j :: 0 <= i < j < |entries| ==> entries[i].0 != entries[j].0)
  }

  /** Moving one entry keeps `Listed`. */
  lemma ListOne<K(!new), V>(entries: seq<(K, V)>, rest: map<K, V>, m: map<K, V>, k: K)
    requires Listed(entries, rest, m) && k in rest
    ensures Listed(entries + [(k, rest[k])], rest - {k}, m)
  {
    var entries', rest' := entries + [(k, rest[k])], rest - {k};
    forall k' | k' in m && k' !in rest'
      ensures exists j :: 0 <= j < |entries'| && entries'[j].0 == k'
    {
      if k' == k {
        assert entries'[|entries|].0 == k';
      } else {
        var j :| 0 <= j < |entries| && entries[j].0 == k';
        assert entries'[j].0 == k';
      }
    }
  }

  /** `dict.map { … }`: the entries of `m`, each key once, in an order the
      dictionary does not promise. */
  method EntriesOf<K(!new), V>(m: map<K, V>) returns (entries: seq<(K, V)>)
    ensures forall j :: 0 <= j < |entries| ==> entries[j].0 in m && m[entries[j].0] == entries[j].1
    ensures forall k :: k in m ==> exists j :: 0 <= j < |entries| && entries[j].0 == k
    ensures forall i, j :: 0 <= i < j < |entries| ==> entries[i].0 != entries[j].0
  {
    entries := [];
    var rest := m;
    while rest != map[]
      invariant Listed(entries, rest, m)
      decreases |rest.Keys|
    {
      var k :| k in rest;
      ListOne(entries, rest, m, k);
      entries, rest := entries + [(k, rest[k])], rest - {k};
    }
  }
}
