/**
 * Lock-step sorting of two ranges: the first range is sorted ascending and
 * the second range is permuted in the same way.
 *
 * The order is obtained as in the source: the positions `0..n-1` are sorted
 * stably by their key. The standard library's stable sort is given here by an
 * insertion sort on positions; any stable sort yields the same order, since a
 * stable order by a total preorder is unique.
 */
module Sorting {
  import opened Counting

  /** Every entry of `o` is a position of a sequence of length `n`. */
  predicate Positions(o: seq<int>, n: int)
  {
    forall k :: 0 <= k < |o| ==> 0 <= o[k] < n
  }

  /** The positions `o` list ascending keys. */
  predicate SortedBy(keys: seq<real>, o: seq<int>)
    requires Positions(o, |keys|)
  {
    forall a, b :: 0 <= a < b < |o| ==> keys[o[a]] <= keys[o[b]]
  }

  /** Positions with equal keys keep their original relative order. */
  predicate StableBy(keys: seq<real>, o: seq<int>)
    requires Positions(o, |keys|)
  {
    forall a, b :: 0 <= a < b < |o| && keys[o[a]] == keys[o[b]] ==> o[a] < o[b]
  }

  /** Where position `i` goes in `o`: after every position whose key is not
      greater than `keys[i]`, found by scanning from the back. */
  function InsertAt(keys: seq<real>, o: seq<int>, i: int): (p: nat)
    requires 0 <= i < |keys| && Positions(o, |keys|)
    ensures p <= |o|
  {
    if |o| == 0 then 0
    else if keys[i] < keys[o[|o| - 1]] then InsertAt(keys, o[..|o| - 1], i)
    else |o|
  }

  /** Inserts position `i` into the order `o`. */
  function InsertPosition(keys: seq<real>, o: seq<int>, i: int): (r: seq<int>)
    requires 0 <= i < |keys| && Positions(o, |keys|)
    ensures |r| == |o| + 1 && Positions(r, |keys|)
  {
    var p := InsertAt(keys, o, i);
    o[..p] + [i] + o[p..]
  }

  /** The stable order of the first `m` positions. */
  function OrderOf(keys: seq<real>, m: nat): (o: seq<int>)
    requires m <= |keys|
    ensures |o| == m && Positions(o, |keys|)
  {
    if m == 0 then []
    else
      InsertPosition(keys, OrderOf(keys, m - 1), m - 1)
  }

  /** `std::stable_sort` of `0..n-1` compared by `keys`. */
  function StableOrder(keys: seq<real>): (o: seq<int>)
    ensures |o| == |keys| && Positions(o, |keys|)
  {
    OrderOf(keys, |keys|)
  }

  /** The entries of `s` at the positions `o`, in that order. */
  function Gather<T>(s: seq<T>, o: seq<int>): (g: seq<T>)
    requires Positions(o, |s|)
    ensures |g| == |o|
  {
    if |o| == 0 then [] else Gather(s, o[..|o| - 1]) + [s[o[|o| - 1]]]
  }

  lemma {:induction false} GatherIndex<T>(s: seq<T>, o: seq<int>)
    requires Positions(o, |s|)
    ensures forall k :: 0 <= k < |o| ==> Gather(s, o)[k] == s[o[k]]
  {
    if |o| > 0 {
      GatherIndex(s, o[..|o| - 1]);
    }
  }

  predicate Ascending(s: seq<real>)
  {
    forall a, b :: 0 <= a < b < |s| ==> s[a] <= s[b]
  }

  // ---------------------------------------------------------------------
  // The stable order is a sorted, stable permutation of the positions
  // ---------------------------------------------------------------------

  /** Every position after the insertion point has a greater key. */
  lemma {:induction false} InsertAtAbove(keys: seq<real>, o: seq<int>, i: int)
    requires 0 <= i < |keys| && Positions(o, |keys|)
    ensures forall k :: InsertAt(keys, o, i) <= k < |o| ==> keys[i] < keys[o[k]]
  {
    if |o| > 0 && keys[i] < keys[o[|o| - 1]] {
      InsertAtAbove(keys, o[..|o| - 1], i);
    }
  }

  /** In a sorted order, every position before the insertion point has a key
      not greater than `keys[i]`. */
  lemma {:induction false} InsertAtBelow(keys: seq<real>, o: seq<int>, i: int)
    requires 0 <= i < |keys| && Positions(o, |keys|) && SortedBy(keys, o)
    ensures forall k :: 0 <= k < InsertAt(keys, o, i) ==> keys[o[k]] <= keys[i]
  {
    if |o| > 0 && keys[i] < keys[o[|o| - 1]] {
      InsertAtBelow(keys, o[..|o| - 1], i);
    }
  }

  lemma InsertIndex(keys: seq<real>, o: seq<int>, i: int)
    requires 0 <= i < |keys| && Positions(o, |keys|)
    ensures var p, r := InsertAt(keys, o, i), InsertPosition(keys, o, i);
      r[p] == i && (forall k :: 0 <= k < p ==> r[k] == o[k])
      && (forall k :: p < k < |r| ==> r[k] == o[k - 1])
  {
  }

  lemma InsertMultiset(keys: seq<real>, o: seq<int>, i: int)
    requires 0 <= i < |keys| && Positions(o, |keys|)
    ensures multiset(InsertPosition(keys, o, i)) == multiset(o) + multiset{i}
  {
    var p := InsertAt(keys, o, i);
    assert o == o[..p] + o[p..];
  }

  lemma InsertSorted(keys: seq<real>, o: seq<int>, i: int)
    requires 0 <= i < |keys| && Positions(o, |keys|) && SortedBy(keys, o)
    ensures SortedBy(keys, InsertPosition(keys, o, i))
  {
    var p, r := InsertAt(keys, o, i), InsertPosition(keys, o, i);
    InsertAtAbove(keys, o, i);
    InsertAtBelow(keys, o, i);
    InsertIndex(keys, o, i);
    forall a, b | 0 <= a < b < |r|
      ensures keys[r[a]] <= keys[r[b]]
    {
      if b < p {
        assert keys[o[a]] <= keys[o[b]];
      } else if b > p && a > p {
        assert keys[o[a - 1]] <= keys[o[b - 1]];
      }
    }
  }

  lemma InsertStable(keys: seq<real>, o: seq<int>, i: int)
    requires 0 <= i < |keys| && Positions(o, |keys|) && StableBy(keys, o)
    requires forall k :: 0 <= k < |o| ==> o[k] < i
    ensures StableBy(keys, InsertPosition(keys, o, i))
  {
    var p, r := InsertAt(keys, o, i), InsertPosition(keys, o, i);
    InsertAtAbove(keys, o, i);
    InsertIndex(keys, o, i);
    forall a, b | 0 <= a < b < |r| && keys[r[a]] == keys[r[b]]
      ensures r[a] < r[b]
    {
      if b < p {
        assert keys[o[a]] == keys[o[b]];
      } else if b > p && a > p {
        assert keys[o[a - 1]] == keys[o[b - 1]];
      }
    }
  }

  /** The order of the first `m` positions holds only positions below `m`. */
  lemma {:induction false} OrderBelow(keys: seq<real>, m: nat)
    requires m <= |keys|
    ensures forall k :: 0 <= k < m ==> OrderOf(keys, m)[k] < m
  {
    if m > 0 {
      OrderBelow(keys, m - 1);
      InsertIndex(keys, OrderOf(keys, m - 1), m - 1);
    }
  }

  /** The order of the first `m` positions lists no position twice. */
  lemma {:induction false} OrderDistinct(keys: seq<real>, m: nat)
    requires m <= |keys|
    ensures forall a, b :: 0 <= a < b < m ==> OrderOf(keys, m)[a] != OrderOf(keys, m)[b]
  {
    if m > 0 {
      var o := OrderOf(keys, m - 1);
      OrderDistinct(keys, m - 1);
      OrderBelow(keys, m - 1);
      InsertIndex(keys, o, m - 1);
    }
  }

  lemma {:induction false} OrderSortedStable(keys: seq<real>, m: nat)
    requires m <= |keys|
    ensures SortedBy(keys, OrderOf(keys, m)) && StableBy(keys, OrderOf(keys, m))
  {
    if m > 0 {
      var o := OrderOf(keys, m - 1);
      OrderSortedStable(keys, m - 1);
      OrderBelow(keys, m - 1);
      InsertSorted(keys, o, m - 1);
      InsertStable(keys, o, m - 1);
    }
  }

  /** The stable order lists every position exactly once (its `n` entries
      are distinct positions below `n`), by ascending key, and keeps
      positions with equal keys in their original order. */
  lemma StableOrderCorrect(keys: seq<real>)
    ensures var o := StableOrder(keys);
      forall a, b :: 0 <= a < b < |o| ==> o[a] != o[b]
    ensures SortedBy(keys, StableOrder(keys)) && StableBy(keys, StableOrder(keys))
  {
    OrderDistinct(keys, |keys|);
    OrderSortedStable(keys, |keys|);
  }

  lemma {:induction false} GatherAppend<T>(s: seq<T>, a: seq<int>, b: seq<int>)
    requires Positions(a, |s|) && Positions(b, |s|)
    ensures Positions(a + b, |s|) && Gather(s, a + b) == Gather(s, a) + Gather(s, b)
  {
    if |b| > 0 {
      var b' := b[..|b| - 1];
      assert (a + b)[..|a + b| - 1] == a + b';
      GatherAppend(s, a, b');
    } else {
      assert a + b == a;
    }
  }

  /** Inserting position `i` into the order adds `s[i]` to what it gathers. */
  lemma GatherInsert<T>(keys: seq<real>, s: seq<T>, o: seq<int>, i: int, r: seq<int>)
    requires |s| == |keys| && 0 <= i < |keys| && Positions(o, |keys|)
    requires r == InsertPosition(keys, o, i)
    ensures multiset(Gather(s, r)) == multiset(Gather(s, o)) + multiset{s[i]}
  {
    var p := InsertAt(keys, o, i);
    var u, v := o[..p], o[p..];
    assert o == u + v;
    GatherAppend(s, u, v);
    GatherAppend(s, u, [i]);
    GatherAppend(s, u + [i], v);
    GatherSingle(s, i);
  }

  lemma GatherSingle<T>(s: seq<T>, i: int)
    requires 0 <= i < |s|
    ensures Positions([i], |s|) && Gather(s, [i]) == [s[i]]
  {
    assert [i][..0] == [];
  }

  lemma PrefixMultiset<T>(s: seq<T>, m: int)
    requires 0 < m <= |s|
    ensures multiset(s[..m]) == multiset(s[..m - 1]) + multiset{s[m - 1]}
  {
    assert s[..m] == s[..m - 1] + [s[m - 1]];
  }

  lemma {:induction false} GatherOrder<T>(keys: seq<real>, s: seq<T>, m: nat)
    requires |s| == |keys| && m <= |keys|
    ensures multiset(Gather(s, OrderOf(keys, m))) == multiset(s[..m])
  {
    if m == 0 {
      assert s[..m] == [];
    } else {
      GatherOrder(keys, s, m - 1);
      GatherInsert(keys, s, OrderOf(keys, m - 1), m - 1, OrderOf(keys, m));
      PrefixMultiset(s, m);
    }
  }

  /** Gathering `s` through the stable order of any keys permutes `s`. */
  lemma GatherStableOrder<T>(keys: seq<real>, s: seq<T>)
    requires |s| == |keys|
    ensures multiset(Gather(s, StableOrder(keys))) == multiset(s)
  {
    GatherOrder(keys, s, |s|);
    assert s[..|s|] == s;
  }

  /** The keys gathered through their stable order are ascending. */
  lemma GatherAscending(keys: seq<real>)
    ensures Ascending(Gather(keys, StableOrder(keys)))
  {
    StableOrderCorrect(keys);
    GatherIndex(keys, StableOrder(keys));
  }

  // ---------------------------------------------------------------------
  // sortTwoArray
  // ---------------------------------------------------------------------

  /** Sorts `first` and rearranges `second[offset..offset + |first|]` by the
      same permutation: the stable order of `first`'s values. The rest of
      `second` is untouched. */
  method SortTwoArray(first: array<real>, second: array<int>, offset: int)
    requires 0 <= offset && offset + first.Length <= second.Length
    modifies first, second
    ensures first[..] == Gather(old(first[..]), StableOrder(old(first[..])))
    ensures second[offset..offset + first.Length]
         == Gather(old(second[offset..offset + first.Length]), StableOrder(old(first[..])))
    ensures second[..offset] == old(second[..offset])
    ensures second[offset + first.Length..] == old(second[offset + first.Length..])
  {
    var range := first.Length;
    var orderedIndices := StableOrder(first[..]);
    var sortedData := GatherLoop(first[..], orderedIndices);
    var sortedIndices := GatherLoop(second[offset..offset + range], orderedIndices);
    ghost var before := second[..];
    forall id | 0 <= id < range {
      first[id] := sortedData[id];
    }
    forall id | 0 <= id < range {
      second[offset + id] := sortedIndices[id];
    }
    assert second[..offset] == before[..offset];
    assert second[offset + range..] == before[offset + range..];
  }

  /** One of `sortTwoArray`'s copying loops: entry `id` of the result is the
      entry of `s` at position `o[id]`. */
  method GatherLoop<T>(s: seq<T>, o: seq<int>) returns (g: seq<T>)
    requires Positions(o, |s|)
    ensures g == Gather(s, o)
  {
    g := [];
    for id := 0 to |o|
      invariant |g| == id
      invariant forall k :: 0 <= k < id ==> g[k] == s[o[k]]
    {
      g := g + [s[o[id]]];
    }
    GatherIndex(s, o);
  }

  /** What `SortTwoArray` promises: the first range ends ascending and each
      range keeps its elements; both are rearranged by the same order of
      positions, which `StableOrderCorrect` shows to be a stable sort. */
  lemma SortTwoArrayMeaning(keys: seq<real>, values: seq<int>, keys': seq<real>, values': seq<int>)
    requires |values| == |keys|
    requires keys' == Gather(keys, StableOrder(keys)) && values' == Gather(values, StableOrder(keys))
    ensures Ascending(keys')
    ensures multiset(keys') == multiset(keys) && multiset(values') == multiset(values)
  {
    GatherAscending(keys);
    GatherStableOrder(keys, keys);
    GatherStableOrder(keys, values);
  }
}
