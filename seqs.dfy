/** Small sequence toolbox shared by the partitioner and the aggregator:
    concatenation of many lists (`list.extend` in a loop), mapping, filtering,
    and the facts about them that the engine's proofs need. */
module Seqs {

  /** Concatenation of the lists in `ss`, left to right. */
  function Flatten<T>(ss: seq<seq<T>>): seq<T>
    decreases |ss|
  {
    if ss == [] then [] else Flatten(ss[..|ss| - 1]) + ss[|ss| - 1]
  }

  /** `f` applied to every element, in order. */
  function MapSeq<X, Y>(f: X -> Y, s: seq<X>): (r: seq<Y>)
    ensures |r| == |s|
    ensures forall i :: 0 <= i < |s| ==> r[i] == f(s[i])
  {
    seq(|s|, i requires 0 <= i < |s| => f(s[i]))
  }

  /** The elements of `s` that satisfy `keep`, in order. */
  function Filter<T>(keep: T -> bool, s: seq<T>): seq<T>
    decreases |s|
  {
    if s == [] then []
    else Filter(keep, s[..|s| - 1]) + (if keep(s[|s| - 1]) then [s[|s| - 1]] else [])
  }

  lemma {:induction false} FlattenAppend<T>(a: seq<seq<T>>, b: seq<seq<T>>)
    ensures Flatten(a + b) == Flatten(a) + Flatten(b)
    decreases |b|
  {
    if b == [] {
      assert a + b == a;
    } else {
      var b' := b[..|b| - 1];
      assert (a + b)[..|a + b| - 1] == a + b';
      assert (a + b)[|a + b| - 1] == b[|b| - 1];
      FlattenAppend(a, b');
      assert b == b' + [b[|b| - 1]];
    }
  }

  lemma {:induction false} FlattenSingleton<T>(s: seq<T>)
    ensures Flatten([s]) == s
  {
    assert [s][..0] == [];
  }

  /** Lists of pairwise equal lengths concatenate to equal lengths. */
  lemma {:induction false} FlattenSameLengths<T, U>(a: seq<seq<T>>, b: seq<seq<U>>)
    requires |a| == |b|
    requires forall i :: 0 <= i < |a| ==> |a[i]| == |b[i]|
    ensures |Flatten(a)| == |Flatten(b)|
    decreases |a|
  {
    if a != [] {
      FlattenSameLengths(a[..|a| - 1], b[..|b| - 1]);
    }
  }

  lemma MapSeqAppend<X, Y>(f: X -> Y, a: seq<X>, b: seq<X>)
    ensures MapSeq(f, a + b) == MapSeq(f, a) + MapSeq(f, b)
  {
  }

  /** Peeling the last list off a mapped concatenation. */
  lemma FlattenMapSnoc<X, T>(f: X -> seq<T>, s: seq<X>)
    requires |s| > 0
    ensures Flatten(MapSeq(f, s)) == Flatten(MapSeq(f, s[..|s| - 1])) + f(s[|s| - 1])
  {
    assert MapSeq(f, s)[..|s| - 1] == MapSeq(f, s[..|s| - 1]);
  }

  /** Taking one list out of the middle of a concatenation. */
  lemma FlattenMapExtract<X, T>(f: X -> seq<T>, b1: seq<X>, x: X, b2: seq<X>)
    ensures multiset(Flatten(MapSeq(f, b1 + [x] + b2)))
         == multiset(Flatten(MapSeq(f, b1 + b2))) + multiset(f(x))
  {
    MapSeqAppend(f, b1 + [x], b2);
    MapSeqAppend(f, b1, [x]);
    MapSeqAppend(f, b1, b2);
    assert MapSeq(f, [x]) == [f(x)];
    FlattenAppend(MapSeq(f, b1) + [f(x)], MapSeq(f, b2));
    FlattenAppend(MapSeq(f, b1), [f(x)]);
    FlattenAppend(MapSeq(f, b1), MapSeq(f, b2));
    FlattenSingleton(f(x));
  }

  /** Concatenating a reordering of the same lists gives a reordering of the
      same items: the multiset of the concatenation depends only on the
      multiset of the inputs, whatever order `f` is applied in. */
  lemma {:induction false} FlattenMapReorder<X, T>(f: X -> seq<T>, a: seq<X>, b: seq<X>)
    requires multiset(a) == multiset(b)
    ensures multiset(Flatten(MapSeq(f, a))) == multiset(Flatten(MapSeq(f, b)))
    decreases |a|
  {
    if a == [] {
      assert |b| == |multiset(b)| == 0;
      assert b == [];
    } else {
      var x := a[|a| - 1];
      var a' := a[..|a| - 1];
      assert x in multiset(b) by { assert a == a' + [x]; }
      var j :| 0 <= j < |b| && b[j] == x;
      var b1, b2 := b[..j], b[j + 1..];
      assert b == b1 + [x] + b2;
      assert multiset(a') == multiset(b1 + b2) by {
        assert a == a' + [x];
        assert multiset(a') == multiset(a) - multiset{x};
        assert multiset(b1 + b2) == multiset(b) - multiset{x};
      }
      FlattenMapReorder(f, a', b1 + b2);
      assert multiset(Flatten(MapSeq(f, a))) == multiset(Flatten(MapSeq(f, a'))) + multiset(f(x)) by {
        FlattenMapExtract(f, a', x, []);
        assert a' + [x] + [] == a;
        assert a' + [] == a';
      }
      FlattenMapExtract(f, b1, x, b2);
    }
  }

  /** The one-item-or-empty list that filtering contributes for `x`. */
  function KeepOne<T>(keep: T -> bool): T -> seq<T>
  {
    x => if keep(x) then [x] else []
  }

  /** Filtering is concatenating the one-item-or-empty lists. */
  lemma {:induction false} FilterAsFlatten<T>(keep: T -> bool, s: seq<T>)
    ensures Filter(keep, s) == Flatten(MapSeq(KeepOne(keep), s))
    decreases |s|
  {
    if s != [] {
      var s' := s[..|s| - 1];
      FilterAsFlatten(keep, s');
      assert MapSeq(KeepOne(keep), s)[..|s| - 1] == MapSeq(KeepOne(keep), s');
    }
  }

  /** Filtering commutes with reordering. */
  lemma FilterReorder<T>(keep: T -> bool, a: seq<T>, b: seq<T>)
    requires multiset(a) == multiset(b)
    ensures multiset(Filter(keep, a)) == multiset(Filter(keep, b))
  {
    FilterAsFlatten(keep, a);
    FilterAsFlatten(keep, b);
    FlattenMapReorder(KeepOne(keep), a, b);
  }

  lemma {:induction false} FilterAppend<T>(keep: T -> bool, a: seq<T>, b: seq<T>)
    ensures Filter(keep, a + b) == Filter(keep, a) + Filter(keep, b)
    decreases |b|
  {
    if b == [] {
      assert a + b == a;
    } else {
      var b' := b[..|b| - 1];
      assert (a + b)[..|a + b| - 1] == a + b';
      assert (a + b)[|a + b| - 1] == b[|b| - 1];
      FilterAppend(keep, a, b');
    }
  }

  /** Filtering each list and concatenating is filtering the concatenation. */
  lemma {:induction false} FilterFlatten<T>(keep: T -> bool, ss: seq<seq<T>>, filtered: seq<seq<T>>)
    requires |filtered| == |ss|
    requires forall i :: 0 <= i < |ss| ==> filtered[i] == Filter(keep, ss[i])
    ensures Flatten(filtered) == Filter(keep, Flatten(ss))
    decreases |ss|
  {
    if ss != [] {
      FilterFlatten(keep, ss[..|ss| - 1], filtered[..|ss| - 1]);
      FilterAppend(keep, Flatten(ss[..|ss| - 1]), ss[|ss| - 1]);
    }
  }

  lemma {:induction false} FilterSubset<T>(keep: T -> bool, s: seq<T>)
    ensures forall x :: x in Filter(keep, s) <==> x in s && keep(x)
    ensures |Filter(keep, s)| <= |s|
    decreases |s|
  {
    if s != [] {
      var s' := s[..|s| - 1];
      assert s == s' + [s[|s| - 1]];
      FilterSubset(keep, s');
    }
  }

  /** Every element of the filtered list is an element that passed. */
  lemma FilterIndex<T>(keep: T -> bool, s: seq<T>, i: nat)
    requires i < |Filter(keep, s)|
    ensures Filter(keep, s)[i] in s && keep(Filter(keep, s)[i])
  {
    FilterSubset(keep, s);
    assert Filter(keep, s)[i] in Filter(keep, s);
  }

  /** Filtering drops nothing exactly when every element passes. */
  lemma {:induction false} FilterKeepsAll<T>(keep: T -> bool, s: seq<T>)
    ensures |Filter(keep, s)| == |s| <==> forall i :: 0 <= i < |s| ==> keep(s[i])
    decreases |s|
  {
    if s != [] {
      var s' := s[..|s| - 1];
      FilterKeepsAll(keep, s');
      FilterSubset(keep, s');
    }
  }

  /** The one-item list `[f(x)]`. */
  function Single<X, Y>(f: X -> Y): X -> seq<Y>
  {
    x => [f(x)]
  }

  /** Mapping is concatenating the one-item lists. */
  lemma {:induction false} MapSeqAsFlatten<X, Y>(f: X -> Y, s: seq<X>)
    ensures MapSeq(f, s) == Flatten(MapSeq(Single(f), s))
    decreases |s|
  {
    if s != [] {
      var s' := s[..|s| - 1];
      MapSeqAsFlatten(f, s');
      assert MapSeq(Single(f), s)[..|s| - 1] == MapSeq(Single(f), s');
      assert MapSeq(f, s) == MapSeq(f, s') + [f(s[|s| - 1])];
    }
  }

  /** Mapping commutes with reordering. */
  lemma MapSeqReorder<X, Y>(f: X -> Y, a: seq<X>, b: seq<X>)
    requires multiset(a) == multiset(b)
    ensures multiset(MapSeq(f, a)) == multiset(MapSeq(f, b))
  {
    MapSeqAsFlatten(f, a);
    MapSeqAsFlatten(f, b);
    FlattenMapReorder(Single(f), a, b);
  }

  /** Lists that map pointwise to the same lists concatenate to lists that
      map to the same list. */
  lemma {:induction false} MapSeqFlatten<X, Y>(f: X -> Y, a: seq<seq<X>>, b: seq<seq<X>>)
    requires |a| == |b|
    requires forall i :: 0 <= i < |a| ==> MapSeq(f, a[i]) == MapSeq(f, b[i])
    ensures MapSeq(f, Flatten(a)) == MapSeq(f, Flatten(b))
    decreases |a|
  {
    if a != [] {
      var a', b' := a[..|a| - 1], b[..|b| - 1];
      MapSeqFlatten(f, a', b');
      MapSeqAppend(f, Flatten(a'), a[|a| - 1]);
      MapSeqAppend(f, Flatten(b'), b[|b| - 1]);
    }
  }
}
