/** The partitioner: `[dataList[i::numLists] for i in range(numLists)]`
    (rcsb/utils/multiproc/MultiProcPoolUtil.py, lines 98 and 173). Item `k`
    of the input goes to sublist `k % numLists`, at position `k / numLists`. */
module Partitioning {
  import opened Seqs

  /** Python's slice `s[start::step]` for a positive step. */
  function Stride<T>(s: seq<T>, start: nat, step: nat): seq<T>
    requires step >= 1
    decreases |s| - start
  {
    if start >= |s| then [] else [s[start]] + Stride(s, start + step, step)
  }

  /** The `n` round-robin sublists of `s`; none when `n == 0`. */
  function RoundRobin<T>(s: seq<T>, n: nat): (r: seq<seq<T>>)
    ensures |r| == n
  {
    seq(n, i requires 0 <= i < n => Stride(s, i, n))
  }

  /** Position `j` of sublist `i` is input index `i + j * step`. */
  lemma {:induction false} StrideAt<T>(s: seq<T>, i: nat, step: nat, j: nat)
    requires step >= 1 && j < |Stride(s, i, step)|
    ensures i + j * step < |s|
    ensures Stride(s, i, step)[j] == s[i + j * step]
    decreases j
  {
    if j > 0 {
      StrideAt(s, i + step, step, j - 1);
      assert i + j * step == (i + step) + (j - 1) * step;
    }
  }

  /** Input index `i + j * step` sits at position `j` of sublist `i`. */
  lemma {:induction false} StrideHas<T>(s: seq<T>, i: nat, step: nat, j: nat)
    requires step >= 1 && i + j * step < |s|
    ensures j < |Stride(s, i, step)|
    ensures Stride(s, i, step)[j] == s[i + j * step]
    decreases j
  {
    if j > 0 {
      assert i + j * step == (i + step) + (j - 1) * step;
      StrideHas(s, i + step, step, j - 1);
    }
  }

  /** Slicing after dropping a prefix of length `m`. */
  lemma {:induction false} StrideShift<T>(s: seq<T>, i: nat, step: nat, m: nat)
    requires step >= 1 && m <= |s|
    ensures Stride(s, i + m, step) == Stride(s[m..], i, step)
    decreases |s| - i
  {
    var t := s[m..];
    if i + m < |s| {
      StrideShift(s, i + step, step, m);
      assert i + m + step == i + step + m;
      assert Stride(s, i + m, step) == [s[i + m]] + Stride(s, i + m + step, step);
      assert Stride(t, i, step) == [t[i]] + Stride(t, i + step, step);
      assert t[i] == s[i + m];
    } else {
      assert Stride(s, i + m, step) == [];
      assert Stride(t, i, step) == [];
    }
  }

  /** The length of sublist `i < step`: `|s| / step`, plus one for the
      first `|s| % step` sublists. */
  lemma {:induction false} StrideLength<T>(s: seq<T>, i: nat, step: nat)
    requires step >= 1 && i < step
    ensures |Stride(s, i, step)| == |s| / step + (if i < |s| % step then 1 else 0)
    decreases |s|
  {
    if |s| >= step {
      StrideShift(s, i, step, step);
      StrideLength(s[step..], i, step);
      DivModStep(|s|, step);
      if i >= |s| {
      } else {
        assert Stride(s, i, step) == [s[i]] + Stride(s, i + step, step);
      }
    } else {
      assert |s| / step == 0 && |s| % step == |s|;
      if i < |s| {
        assert Stride(s, i + step, step) == [];
      }
    }
  }

  lemma DivModStep(n: nat, d: nat)
    requires d >= 1 && n >= d
    ensures (n - d) / d == n / d - 1 && (n - d) % d == n % d
  {
    var q, r := (n - d) / d, (n - d) % d;
    assert n - d == q * d + r;
    assert n == (q + 1) * d + r;
    DivModUnique(n, d, q + 1, r);
  }

  lemma {:induction false} MulSign(x: int, d: int)
    requires d >= 1
    ensures x >= 1 ==> x * d >= d
    ensures x <= -1 ==> x * d <= -d
    decreases if x < 0 then -x else x
  {
    if x > 1 {
      MulSign(x - 1, d);
    } else if x < -1 {
      MulSign(x + 1, d);
    }
  }

  lemma DivModUnique(n: nat, d: nat, q: int, r: int)
    requires d >= 1 && n == q * d + r && 0 <= r < d
    ensures n / d == q && n % d == r
  {
    var q', r' := n / d, n % d;
    assert n == q' * d + r';
    assert (q' - q) * d == r - r';
    MulSign(q' - q, d);
  }

  /** Input index `k` is item `k / n` of sublist `k % n`. */
  lemma RoundRobinIndex<T>(s: seq<T>, n: nat, k: nat)
    requires n >= 1 && k < |s|
    ensures k / n < |RoundRobin(s, n)[k % n]| && RoundRobin(s, n)[k % n][k / n] == s[k]
  {
    assert k == k % n + (k / n) * n;
    StrideHas(s, k % n, n, k / n);
  }

  /** Item `j` of sublist `i` is input index `i + j * n`, and that index is
      sent back to sublist `i`, position `j`: no index lands in two places. */
  lemma RoundRobinItem<T>(s: seq<T>, n: nat, i: nat, j: nat)
    requires i < n && j < |RoundRobin(s, n)[i]|
    ensures i + j * n < |s| && RoundRobin(s, n)[i][j] == s[i + j * n]
    ensures (i + j * n) % n == i && (i + j * n) / n == j
  {
    StrideAt(s, i, n, j);
    DivModUnique(i + j * n, n, j, i);
  }

  /** The first round of the split: item `i` for each sublist `i` that gets one. */
  function FirstRound<T>(s: seq<T>, n: nat): (r: seq<seq<T>>)
    ensures |r| == n
  {
    seq(n, i requires 0 <= i < n => if i < |s| then [s[i]] else [])
  }

  /** Every sublist is its first-round item followed by the matching
      sublist of what is left after the first round. */
  lemma RoundRobinPeel<T>(s: seq<T>, n: nat, i: nat)
    requires 1 <= n && i < n
    ensures RoundRobin(s, n)[i]
         == FirstRound(s, n)[i] + RoundRobin(s[if n <= |s| then n else |s|..], n)[i]
  {
    var m := if n <= |s| then n else |s|;
    StrideShift(s, i, n, m);
    if i < |s| {
      if n <= |s| {
        assert Stride(s, i, n) == [s[i]] + Stride(s, i + n, n);
      } else {
        assert Stride(s, i + n, n) == [];
        assert Stride(s[m..], i, n) == [];
      }
    }
  }

  /** Peeling the first round off every sublist at once. */
  lemma RoundRobinPeelAll<T>(s: seq<T>, n: nat)
    requires n >= 1
    ensures multiset(Flatten(RoundRobin(s, n)))
         == multiset(s[..if n <= |s| then n else |s|])
          + multiset(Flatten(RoundRobin(s[if n <= |s| then n else |s|..], n)))
  {
    var m := if n <= |s| then n else |s|;
    var first, rest := FirstRound(s, n), RoundRobin(s[m..], n);
    forall i | 0 <= i < n ensures RoundRobin(s, n)[i] == first[i] + rest[i] {
      RoundRobinPeel(s, n, i);
    }
    FlattenPointwise(first, rest, RoundRobin(s, n));
    HeadsFlatten(s, n, first);
  }

  /** The sublists together hold exactly the input items: the multiset union
      of the partitions equals the input. */
  lemma {:induction false} RoundRobinCoverage<T>(s: seq<T>, n: nat)
    requires n >= 1
    ensures multiset(Flatten(RoundRobin(s, n))) == multiset(s)
    decreases |s|
  {
    if s == [] {
      EmptyFlatten(RoundRobin(s, n));
    } else {
      var m := if n <= |s| then n else |s|;
      RoundRobinPeelAll(s, n);
      RoundRobinCoverage(s[m..], n);
      assert s == s[..m] + s[m..];
    }
  }

  lemma {:induction false} EmptyFlatten<T>(ss: seq<seq<T>>)
    requires forall i :: 0 <= i < |ss| ==> ss[i] == []
    ensures Flatten(ss) == []
    decreases |ss|
  {
    if ss != [] {
      EmptyFlatten(ss[..|ss| - 1]);
    }
  }

  /** Concatenating pointwise concatenations, as multisets. */
  lemma {:induction false} FlattenPointwise<T>(a: seq<seq<T>>, b: seq<seq<T>>, c: seq<seq<T>>)
    requires |a| == |b| == |c|
    requires forall i :: 0 <= i < |c| ==> c[i] == a[i] + b[i]
    ensures multiset(Flatten(c)) == multiset(Flatten(a)) + multiset(Flatten(b))
    decreases |c|
  {
    if c != [] {
      var k := |c| - 1;
      FlattenPointwise(a[..k], b[..k], c[..k]);
      assert Flatten(c) == Flatten(c[..k]) + a[k] + b[k];
      assert Flatten(a) == Flatten(a[..k]) + a[k];
      assert Flatten(b) == Flatten(b[..k]) + b[k];
    }
  }

  /** The first round of a round-robin split is the first `min(n, |s|)` items. */
  lemma {:induction false} HeadsFlatten<T>(s: seq<T>, n: nat, heads: seq<seq<T>>)
    requires |heads| == n
    requires forall i :: 0 <= i < n ==> heads[i] == if i < |s| then [s[i]] else []
    ensures Flatten(heads) == s[..if n <= |s| then n else |s|]
    decreases n
  {
    if n > 0 {
      HeadsFlatten(s, n - 1, heads[..n - 1]);
    }
  }

  /** Balance: with at most as many sublists as items, every sublist is
      non-empty and any two lengths differ by at most one. */
  lemma RoundRobinBalanced<T>(s: seq<T>, n: nat)
    requires 1 <= n <= |s|
    ensures forall i :: 0 <= i < n ==> |RoundRobin(s, n)[i]| >= 1
    ensures forall i, j :: 0 <= i < n && 0 <= j < n ==>
      |RoundRobin(s, n)[i]| <= |RoundRobin(s, n)[j]| + 1
  {
    assert |s| / n >= 1 by {
      assert |s| == (|s| / n) * n + |s| % n;
      assert |s| % n < n <= |s|;
    }
    forall i | 0 <= i < n ensures |s| / n <= |RoundRobin(s, n)[i]| <= |s| / n + 1 {
      StrideLength(s, i, n);
    }
  }

  /** Item `j` of sublist `i` is item `i + j * |subs|` of `s`. */
  ghost predicate PlacedAt<T>(subs: seq<seq<T>>, s: seq<T>, i: nat, j: nat)
    requires i < |subs| && j < |subs[i]|
  {
    i + j * |subs| < |s| && subs[i][j] == s[i + j * |subs|]
  }

  /** Sublist `i` holds the items at positions `i`, `i + n`, `i + 2 * n`,
      ... of `s`, where `n` is the number of sublists. */
  ghost predicate Strided<T>(subs: seq<seq<T>>, s: seq<T>)
  {
    forall i: nat, j: nat :: i < |subs| && j < |subs[i]| ==> PlacedAt(subs, s, i, j)
  }

  lemma RoundRobinPlacement<T>(s: seq<T>, n: nat)
    ensures Strided(RoundRobin(s, n), s)
  {
    var subs := RoundRobin(s, n);
    forall i: nat, j: nat | i < |subs| && j < |subs[i]|
      ensures PlacedAt(subs, s, i, j)
    {
      RoundRobinItem(s, n, i, j);
    }
  }
}
