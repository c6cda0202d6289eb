/**
 * Counting and summing over sequences of sample indices.
 *
 * The criteria keep per-class counts and running sums over a window of the
 * shared sample-index array, and the splitter reorders that window in place.
 * Everything here is stated so that it depends only on the multiset of the
 * window, which is what survives the reordering.
 */
module Counting {

  /** Number of elements of `s` that satisfy `p`, counted from the back so
      that growing a prefix by one element adds one term. */
  function Count<T>(s: seq<T>, p: T -> bool): (n: nat)
    ensures n <= |s|
  {
    if |s| == 0 then 0 else Count(s[..|s| - 1], p) + (if p(s[|s| - 1]) then 1 else 0)
  }

  lemma {:induction false} CountAppend<T>(a: seq<T>, b: seq<T>, p: T -> bool)
    ensures Count(a + b, p) == Count(a, p) + Count(b, p)
  {
    if |b| == 0 {
      assert a + b == a;
    } else {
      assert (a + b)[..|a + b| - 1] == a + b[..|b| - 1];
      CountAppend(a, b[..|b| - 1], p);
    }
  }

  /** Removing the same element from two sequences with equal multisets
      leaves equal multisets. */
  lemma RemoveSame<T>(a': seq<T>, b: seq<T>, i: int, x: T)
    requires 0 <= i < |b| && b[i] == x
    requires multiset(a' + [x]) == multiset(b)
    ensures multiset(a') == multiset(b[..i] + b[i + 1..])
  {
    assert b == b[..i] + [x] + b[i + 1..];
    assert multiset(b) == multiset(b[..i]) + multiset{x} + multiset(b[i + 1..]);
    assert multiset(a' + [x]) == multiset(a') + multiset{x};
    assert multiset(b[..i] + b[i + 1..]) == multiset(b[..i]) + multiset(b[i + 1..]);
    assert multiset(a') == multiset(a') + multiset{x} - multiset{x};
    assert multiset(b[..i] + b[i + 1..]) == multiset(b) - multiset{x};
  }

  /** Counting depends only on the multiset of the elements. */
  lemma {:induction false} CountPermutation<T>(a: seq<T>, b: seq<T>, p: T -> bool)
    requires multiset(a) == multiset(b)
    ensures Count(a, p) == Count(b, p)
  {
    if |a| == 0 {
      assert |multiset(b)| == 0;
      assert b == [];
    } else {
      var x := a[|a| - 1];
      var a' := a[..|a| - 1];
      assert a == a' + [x];
      assert x in multiset(b);
      var i :| 0 <= i < |b| && b[i] == x;
      var b' := b[..i] + b[i + 1..];
      assert b == b[..i] + [x] + b[i + 1..];
      RemoveSame(a', b, i, x);
      CountPermutation(a', b', p);
      CountAppend(a', [x], p);
      CountAppend(b[..i] + [x], b[i + 1..], p);
      CountAppend(b[..i], [x], p);
      CountAppend(b[..i], b[i + 1..], p);
      assert [x][..0] == [];
    }
  }

  /** When exactly the first `k` elements satisfy `p`, `k` of them do. */
  lemma {:induction false} CountPrefix<T>(s: seq<T>, p: T -> bool, k: int)
    requires 0 <= k <= |s|
    requires forall i :: 0 <= i < k ==> p(s[i])
    requires forall i :: k <= i < |s| ==> !p(s[i])
    ensures Count(s, p) == k
  {
    if |s| > k {
      CountPrefix(s[..|s| - 1], p, k);
    } else if k > 0 {
      CountPrefix(s[..|s| - 1], p, k - 1);
    }
  }

  /** The elements of `s` that satisfy `p`, in their order. */
  function Filter<T>(s: seq<T>, p: T -> bool): (r: seq<T>)
    ensures |r| == Count(s, p)
  {
    if |s| == 0 then [] else Filter(s[..|s| - 1], p) + (if p(s[|s| - 1]) then [s[|s| - 1]] else [])
  }

  /** An element occurs in the filtered sequence as often as in `s` when it
      satisfies `p`, and not at all otherwise. */
  lemma {:induction false} FilterMultiplicity<T>(s: seq<T>, p: T -> bool, z: T)
    ensures multiset(Filter(s, p))[z] == if p(z) then multiset(s)[z] else 0
  {
    if |s| > 0 {
      var n := |s| - 1;
      assert s == s[..n] + [s[n]];
      FilterMultiplicity(s[..n], p, z);
    }
  }

  /** Filtering depends only on the multiset of the elements. */
  lemma FilterPermutation<T>(a: seq<T>, b: seq<T>, p: T -> bool)
    requires multiset(a) == multiset(b)
    ensures multiset(Filter(a, p)) == multiset(Filter(b, p))
  {
    forall z
      ensures multiset(Filter(a, p))[z] == multiset(Filter(b, p))[z]
    {
      FilterMultiplicity(a, p, z);
      FilterMultiplicity(b, p, z);
    }
    SameMultiplicities(multiset(Filter(a, p)), multiset(Filter(b, p)));
  }

  /** Multisets with the same multiplicities are equal. */
  lemma SameMultiplicities<T>(a: multiset<T>, b: multiset<T>)
    requires forall z :: a[z] == b[z]
    ensures a == b
  {
  }

  lemma {:induction false} FilterAppend<T>(a: seq<T>, b: seq<T>, p: T -> bool)
    ensures Filter(a + b, p) == Filter(a, p) + Filter(b, p)
  {
    if |b| > 0 {
      assert (a + b)[..|a + b| - 1] == a + b[..|b| - 1];
      FilterAppend(a, b[..|b| - 1], p);
    } else {
      assert a + b == a;
    }
  }

  /** Filtering keeps a sequence whose elements all satisfy `p` and empties
      one whose elements all fail it. */
  lemma {:induction false} FilterAllOrNone<T>(s: seq<T>, p: T -> bool, all: bool)
    requires forall i :: 0 <= i < |s| ==> p(s[i]) == all
    ensures Filter(s, p) == if all then s else []
  {
    if |s| > 0 {
      FilterAllOrNone(s[..|s| - 1], p, all);
    }
  }

  /** Two predicates that disagree on every element split the count. */
  lemma {:induction false} CountComplement<T>(s: seq<T>, p: T -> bool, q: T -> bool)
    requires forall i :: 0 <= i < |s| ==> q(s[i]) == !p(s[i])
    ensures Count(s, p) + Count(s, q) == |s|
  {
    if |s| > 0 {
      CountComplement(s[..|s| - 1], p, q);
    }
  }

  /** Sum of `f` over the elements of `s`, from the back. */
  function SumOf<T>(s: seq<T>, f: T -> real): real
  {
    if |s| == 0 then 0.0 else SumOf(s[..|s| - 1], f) + f(s[|s| - 1])
  }

  lemma {:induction false} SumOfAppend<T>(a: seq<T>, b: seq<T>, f: T -> real)
    ensures SumOf(a + b, f) == SumOf(a, f) + SumOf(b, f)
  {
    if |b| == 0 {
      assert a + b == a;
    } else {
      assert (a + b)[..|a + b| - 1] == a + b[..|b| - 1];
      SumOfAppend(a, b[..|b| - 1], f);
    }
  }

  /** Summing depends only on the multiset of the elements. */
  lemma {:induction false} SumOfPermutation<T>(a: seq<T>, b: seq<T>, f: T -> real)
    requires multiset(a) == multiset(b)
    ensures SumOf(a, f) == SumOf(b, f)
  {
    if |a| == 0 {
      assert |multiset(b)| == 0;
      assert b == [];
    } else {
      var x := a[|a| - 1];
      var a' := a[..|a| - 1];
      assert a == a' + [x];
      assert x in multiset(b);
      var i :| 0 <= i < |b| && b[i] == x;
      var b' := b[..i] + b[i + 1..];
      assert b == b[..i] + [x] + b[i + 1..];
      RemoveSame(a', b, i, x);
      SumOfPermutation(a', b', f);
      SumOfAppend(a', [x], f);
      SumOfAppend(b[..i] + [x], b[i + 1..], f);
      SumOfAppend(b[..i], [x], f);
      SumOfAppend(b[..i], b[i + 1..], f);
      assert [x][..0] == [];
    }
  }

  /** Integer sum of a count vector (std::accumulate). */
  function Sum(c: seq<int>): int
  {
    if |c| == 0 then 0 else Sum(c[..|c| - 1]) + c[|c| - 1]
  }

  lemma {:induction false} SumAppend(a: seq<int>, b: seq<int>)
    ensures Sum(a + b) == Sum(a) + Sum(b)
  {
    if |b| == 0 {
      assert a + b == a;
    } else {
      assert (a + b)[..|a + b| - 1] == a + b[..|b| - 1];
      SumAppend(a, b[..|b| - 1]);
    }
  }

  /** Adding `d` at one position of a vector adds `d` to its sum. */
  lemma {:induction false} SumUpdate(c: seq<int>, k: int, d: int)
    requires 0 <= k < |c|
    ensures Sum(c[k := c[k] + d]) == Sum(c) + d
  {
    var c' := c[k := c[k] + d];
    assert c == c[..k] + [c[k]] + c[k + 1..];
    assert c' == c[..k] + [c[k] + d] + c[k + 1..];
    SumAppend(c[..k] + [c[k]], c[k + 1..]);
    SumAppend(c[..k], [c[k]]);
    SumAppend(c[..k] + [c[k] + d], c[k + 1..]);
    SumAppend(c[..k], [c[k] + d]);
    assert [c[k]][..0] == [];
    assert [c[k] + d][..0] == [];
  }

  /** A vector of `n` zeros. */
  function Zeros(n: nat): (z: seq<int>)
    ensures |z| == n && forall k :: 0 <= k < n ==> z[k] == 0
  {
    seq(n, k => 0)
  }

  lemma {:induction false} SumZeros(n: nat)
    ensures Sum(Zeros(n)) == 0
  {
    if n > 0 {
      assert Zeros(n)[..n - 1] == Zeros(n - 1);
      SumZeros(n - 1);
    }
  }

  lemma PrefixOfSlice<T>(q: seq<T>, s: int, p: int, e: int)
    requires 0 <= s <= p <= e <= |q|
    ensures q[s..e][..p - s] == q[s..p]
  {
  }

  /** The index sequence start, start+1, ..., end-1 (std::iota). */
  function Range(start: int, end: int): (r: seq<int>)
    requires start <= end
    ensures |r| == end - start
    ensures forall i :: 0 <= i < |r| ==> r[i] == start + i
  {
    seq(end - start, i => start + i)
  }
}
