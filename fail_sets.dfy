/** The fail list: the input items that no worker reported as successful.
    `MultiProcPoolUtil.__diffList` computes it as a set difference by value
    when every item is hashable and falls back to a difference by object
    identity (`id`) otherwise. Python iterates a set in an order fixed by
    hashes; the functions here produce the items in input order, and
    `ValueDiffUpToOrder` / `IdDiffUpToOrder` show that any list meeting the
    same contract is a reordering of that one. */
module FailSets {
  import opened Seqs
  import opened PyObjects

  /** `x` is the first item of `l` that has its value: the representative
      that `set(l)` keeps, since adding an equal value to a set keeps the old one. */
  ghost predicate FirstOfValue<V>(l: seq<Obj<V>>, x: Obj<V>)
  {
    exists j :: 0 <= j < |l| && l[j] == x && forall k :: 0 <= k < j ==> l[k].val != x.val
  }

  /** `x` is the last item of `l` that has its identity: the one that
      `{id(t): ii for ii, t in enumerate(l)}` maps the identity to. */
  ghost predicate LastOfIdent<V>(l: seq<Obj<V>>, x: Obj<V>)
  {
    exists j :: 0 <= j < |l| && l[j] == x && forall k :: j < k < |l| ==> l[k].ident != x.ident
  }

  /** What `list(set(l1) - set(l2))` promises, in any iteration order:
      items of `l1`, one per value of `l1` that is not a value of `l2`,
      each the first item of `l1` with that value. */
  ghost predicate IsValueDiff<V>(l1: seq<Obj<V>>, l2: seq<Obj<V>>, r: seq<Obj<V>>)
  {
    && (forall x :: x in r ==> x in l1)
    && Vals(r) == Vals(l1) - Vals(l2)
    && DistinctVals(r)
    && (forall i :: 0 <= i < |r| ==> FirstOfValue(l1, r[i]))
  }

  /** What the identity fallback promises, in any iteration order: items of
      `l1`, one per identity of `l1` that is not an identity of `l2`, each
      the last item of `l1` with that identity. */
  ghost predicate IsIdDiff<V>(l1: seq<Obj<V>>, l2: seq<Obj<V>>, r: seq<Obj<V>>)
  {
    && (forall x :: x in r ==> x in l1)
    && Ids(r) == Ids(l1) - Ids(l2)
    && DistinctIds(r)
    && (forall i :: 0 <= i < |r| ==> LastOfIdent(l1, r[i]))
  }

  /** `list(set(l1) - set(l2))`, listed in the order of `l1`. */
  function ValueDiff<V(==)>(l1: seq<Obj<V>>, l2: seq<Obj<V>>): (r: seq<Obj<V>>)
    ensures IsValueDiff(l1, l2, r)
    decreases |l1|
  {
    if l1 == [] then []
    else
      var init, x := l1[..|l1| - 1], l1[|l1| - 1];
      var rest := ValueDiff(init, l2);
      assert l1 == init + [x];
      ValueDiffExtend(init, x, l2, rest);
      if x.val in Vals(init) || x.val in Vals(l2) then rest else rest + [x]
  }

  lemma ValueDiffExtend<V>(init: seq<Obj<V>>, x: Obj<V>, l2: seq<Obj<V>>, rest: seq<Obj<V>>)
    requires IsValueDiff(init, l2, rest)
    ensures IsValueDiff(init + [x], l2, if x.val in Vals(init) || x.val in Vals(l2) then rest else rest + [x])
  {
    var l1 := init + [x];
    ValsAppend(init, [x]);
    assert Vals([x]) == {x.val};
    FirstOfValueGrow(init, x, rest);
    if !(x.val in Vals(init) || x.val in Vals(l2)) {
      var r := rest + [x];
      ValsAppend(rest, [x]);
      FirstOfValueNew(init, x);
      DistinctValsSnoc(rest, x);
      forall i | 0 <= i < |r| ensures FirstOfValue(l1, r[i]) {
        if i < |rest| { assert r[i] == rest[i]; }
      }
    }
  }

  /** A first occurrence stays one when an item is appended. */
  lemma FirstOfValueGrow<V>(init: seq<Obj<V>>, x: Obj<V>, rest: seq<Obj<V>>)
    requires forall i :: 0 <= i < |rest| ==> FirstOfValue(init, rest[i])
    ensures forall i :: 0 <= i < |rest| ==> FirstOfValue(init + [x], rest[i])
  {
    forall i | 0 <= i < |rest| ensures FirstOfValue(init + [x], rest[i]) {
      var j :| 0 <= j < |init| && init[j] == rest[i] && forall k :: 0 <= k < j ==> init[k].val != rest[i].val;
      assert (init + [x])[j] == rest[i];
    }
  }

  /** An appended item with a new value is its value's first occurrence. */
  lemma FirstOfValueNew<V>(init: seq<Obj<V>>, x: Obj<V>)
    requires x.val !in Vals(init)
    ensures FirstOfValue(init + [x], x)
  {
    var l1 := init + [x];
    assert l1[|l1| - 1] == x;
    forall k | 0 <= k < |init| ensures l1[k].val != x.val {
      assert l1[k] == init[k] && init[k] in init;
    }
  }

  lemma DistinctValsSnoc<V>(rest: seq<Obj<V>>, x: Obj<V>)
    requires DistinctVals(rest) && x.val !in Vals(rest)
    ensures DistinctVals(rest + [x])
  {
    assert forall i :: 0 <= i < |rest| ==> rest[i].val in Vals(rest);
  }

  /** The identity fallback of `__diffList`, listed in the order of `l1`. */
  function IdDiff<V(==)>(l1: seq<Obj<V>>, l2: seq<Obj<V>>): (r: seq<Obj<V>>)
    ensures IsIdDiff(l1, l2, r)
    decreases |l1|
  {
    if l1 == [] then []
    else
      var x, tail := l1[0], l1[1..];
      var rest := IdDiff(tail, l2);
      assert l1 == [x] + tail;
      IdDiffExtend(x, tail, l2, rest);
      if x.ident in Ids(tail) || x.ident in Ids(l2) then rest else [x] + rest
  }

  lemma IdDiffExtend<V>(x: Obj<V>, tail: seq<Obj<V>>, l2: seq<Obj<V>>, rest: seq<Obj<V>>)
    requires IsIdDiff(tail, l2, rest)
    ensures IsIdDiff([x] + tail, l2, if x.ident in Ids(tail) || x.ident in Ids(l2) then rest else [x] + rest)
  {
    var l1 := [x] + tail;
    IdsAppend([x], tail);
    assert Ids([x]) == {x.ident};
    LastOfIdentGrow(x, tail, rest);
    if !(x.ident in Ids(tail) || x.ident in Ids(l2)) {
      var r := [x] + rest;
      IdsAppend([x], rest);
      LastOfIdentNew(x, tail);
      DistinctIdsCons(x, rest);
      forall i | 0 <= i < |r| ensures LastOfIdent(l1, r[i]) {
        if i > 0 { assert r[i] == rest[i - 1]; }
      }
    }
  }

  /** A last occurrence stays one when an item is prepended. */
  lemma LastOfIdentGrow<V>(x: Obj<V>, tail: seq<Obj<V>>, rest: seq<Obj<V>>)
    requires forall i :: 0 <= i < |rest| ==> LastOfIdent(tail, rest[i])
    ensures forall i :: 0 <= i < |rest| ==> LastOfIdent([x] + tail, rest[i])
  {
    var l1 := [x] + tail;
    forall i | 0 <= i < |rest| ensures LastOfIdent(l1, rest[i]) {
      var j :| 0 <= j < |tail| && tail[j] == rest[i] && forall k :: j < k < |tail| ==> tail[k].ident != rest[i].ident;
      assert l1[j + 1] == rest[i];
      forall k | j + 1 < k < |l1| ensures l1[k].ident != rest[i].ident {
        assert l1[k] == tail[k - 1];
      }
    }
  }

  /** A prepended item with a new identity is its identity's last occurrence. */
  lemma LastOfIdentNew<V>(x: Obj<V>, tail: seq<Obj<V>>)
    requires x.ident !in Ids(tail)
    ensures LastOfIdent([x] + tail, x)
  {
    var l1 := [x] + tail;
    assert l1[0] == x;
    forall k | 0 < k < |l1| ensures l1[k].ident != x.ident {
      assert l1[k] == tail[k - 1] && tail[k - 1] in tail;
    }
  }

  lemma DistinctIdsCons<V>(x: Obj<V>, rest: seq<Obj<V>>)
    requires DistinctIds(rest) && x.ident !in Ids(rest)
    ensures DistinctIds([x] + rest)
  {
    assert forall i :: 0 <= i < |rest| ==> rest[i].ident in Ids(rest);
  }

  /** `__diffList(l1, l2)`: the difference by value when `set()` accepts
      both lists, by identity when it raises `TypeError`. */
  function DiffList<V(==)>(l1: seq<Obj<V>>, l2: seq<Obj<V>>): (r: seq<Obj<V>>)
    ensures AllHashable(l1) && AllHashable(l2) ==> IsValueDiff(l1, l2, r)
    ensures !(AllHashable(l1) && AllHashable(l2)) ==> IsIdDiff(l1, l2, r)
  {
    if AllHashable(l1) && AllHashable(l2) then ValueDiff(l1, l2) else IdDiff(l1, l2)
  }

  lemma FirstOfValueUnique<V>(l: seq<Obj<V>>, x: Obj<V>, y: Obj<V>)
    requires FirstOfValue(l, x) && FirstOfValue(l, y) && x.val == y.val
    ensures x == y
  {
    var jx :| 0 <= jx < |l| && l[jx] == x && forall k :: 0 <= k < jx ==> l[k].val != x.val;
    var jy :| 0 <= jy < |l| && l[jy] == y && forall k :: 0 <= k < jy ==> l[k].val != y.val;
  }

  lemma LastOfIdentUnique<V>(l: seq<Obj<V>>, x: Obj<V>, y: Obj<V>)
    requires LastOfIdent(l, x) && LastOfIdent(l, y) && x.ident == y.ident
    ensures x == y
  {
    var jx :| 0 <= jx < |l| && l[jx] == x && forall k :: jx < k < |l| ==> l[k].ident != x.ident;
    var jy :| 0 <= jy < |l| && l[jy] == y && forall k :: jy < k < |l| ==> l[k].ident != y.ident;
  }

  /** Whatever order Python's set iteration produces, the fail list of the
      value path is a reordering of `ValueDiff`: a list of first
      occurrences with distinct values and the right value set is unique up
      to order. */
  lemma ValueDiffUpToOrder<V>(l1: seq<Obj<V>>, l2: seq<Obj<V>>, r: seq<Obj<V>>)
    requires IsValueDiff(l1, l2, r)
    ensures multiset(r) == multiset(ValueDiff(l1, l2))
  {
    var d := ValueDiff(l1, l2);
    DistinctValsCard(r);
    DistinctValsCard(d);
    forall x ensures x in r <==> x in d {
      if x in r {
        var i :| 0 <= i < |r| && r[i] == x;
        assert x.val in Vals(d);
        var k :| 0 <= k < |d| && d[k].val == x.val;
        FirstOfValueUnique(l1, x, d[k]);
      }
      if x in d {
        var i :| 0 <= i < |d| && d[i] == x;
        assert x.val in Vals(r);
        var k :| 0 <= k < |r| && r[k].val == x.val;
        FirstOfValueUnique(l1, x, r[k]);
      }
    }
    SameItemsReorder(r, d);
  }

  /** The same for the identity fallback: any list of last occurrences with
      distinct identities and the right identity set is a reordering of `IdDiff`. */
  lemma IdDiffUpToOrder<V>(l1: seq<Obj<V>>, l2: seq<Obj<V>>, r: seq<Obj<V>>)
    requires IsIdDiff(l1, l2, r)
    ensures multiset(r) == multiset(IdDiff(l1, l2))
  {
    var d := IdDiff(l1, l2);
    DistinctIdsCard(r);
    DistinctIdsCard(d);
    forall x ensures x in r <==> x in d {
      if x in r {
        var i :| 0 <= i < |r| && r[i] == x;
        assert x.ident in Ids(d);
        var k :| 0 <= k < |d| && d[k].ident == x.ident;
        LastOfIdentUnique(l1, x, d[k]);
      }
      if x in d {
        var i :| 0 <= i < |d| && d[i] == x;
        assert x.ident in Ids(r);
        var k :| 0 <= k < |r| && r[k].ident == x.ident;
        LastOfIdentUnique(l1, x, r[k]);
      }
    }
    SameItemsReorder(r, d);
  }

  /** The items a filtering worker rejects. */
  function Rejects<V>(keep: Obj<V> -> bool): Obj<V> -> bool
  {
    x => !keep(x)
  }

  /** Filtering keeps a list free of repeated values. */
  lemma {:induction false} DistinctValsFilter<V>(keep: Obj<V> -> bool, s: seq<Obj<V>>)
    requires DistinctVals(s)
    ensures DistinctVals(Filter(keep, s))
    decreases |s|
  {
    if s != [] {
      var s', x := s[..|s| - 1], s[|s| - 1];
      DistinctValsFilter(keep, s');
      FilterAvoidsVal(keep, s', x);
    }
  }

  lemma FilterAvoidsVal<V>(keep: Obj<V> -> bool, t: seq<Obj<V>>, x: Obj<V>)
    requires forall k :: 0 <= k < |t| ==> t[k].val != x.val
    ensures forall i :: 0 <= i < |Filter(keep, t)| ==> Filter(keep, t)[i].val != x.val
  {
    forall i | 0 <= i < |Filter(keep, t)| ensures Filter(keep, t)[i].val != x.val {
      FilterIndex(keep, t, i);
      var k :| 0 <= k < |t| && t[k] == Filter(keep, t)[i];
    }
  }

  /** A worker that reports exactly the items `keep` accepts as successful
      makes the value-path fail list the rejected items, each once. */
  lemma ValueDiffOfFilter<V>(data: seq<Obj<V>>, success: seq<Obj<V>>, keep: Obj<V> -> bool)
    requires DistinctVals(data)
    requires multiset(success) == multiset(Filter(keep, data))
    ensures multiset(ValueDiff(data, success)) == multiset(Filter(Rejects(keep), data))
  {
    var r := ValueDiff(data, success);
    var t := Filter(Rejects(keep), data);
    DistinctValsFilter(Rejects(keep), data);
    FilterDiffMembers(data, success, keep);
    assert Vals(r) == Vals(t);
    DistinctValsCard(r);
    DistinctValsCard(t);
    DistinctNoDuplicates(r);
    DistinctNoDuplicates(t);
    SameItemsReorder(r, t);
  }

  /** The value-path difference against the accepted items holds exactly
      the rejected items. */
  lemma FilterDiffMembers<V>(data: seq<Obj<V>>, success: seq<Obj<V>>, keep: Obj<V> -> bool)
    requires DistinctVals(data)
    requires multiset(success) == multiset(Filter(keep, data))
    ensures forall x :: x in ValueDiff(data, success) <==> x in Filter(Rejects(keep), data)
  {
    var r := ValueDiff(data, success);
    var kept := Filter(keep, data);
    var t := Filter(Rejects(keep), data);
    FilterSubset(keep, data);
    FilterSubset(Rejects(keep), data);
    SameValues(success, kept);
    forall x ensures x in r <==> x in t {
      if x in r {
        assert keep(x) ==> x.val in Vals(kept);
      }
      if x in t {
        if x.val in Vals(kept) {
          var y :| y in kept && y.val == x.val;
          SameValSameItem(data, x, y);
        }
        assert x.val in Vals(r);
        var k :| 0 <= k < |r| && r[k].val == x.val;
        SameValSameItem(data, x, r[k]);
      }
    }
  }

  /** Reorderings of one another have the same values. */
  lemma SameValues<V>(a: seq<Obj<V>>, b: seq<Obj<V>>)
    requires multiset(a) == multiset(b)
    ensures Vals(a) == Vals(b)
  {
    forall y ensures y in a <==> y in b {
      assert y in a <==> y in multiset(a);
      assert y in b <==> y in multiset(b);
    }
  }

  /** The identity fallback against worker results that are copies of the
      inputs (new objects, as values sent back from another process are):
      no identity matches, so every input item is declared failed. */
  lemma IdDiffOfCopies<V>(data: seq<Obj<V>>, success: seq<Obj<V>>)
    requires DistinctIds(data)
    requires Ids(data) !! Ids(success)
    ensures multiset(IdDiff(data, success)) == multiset(data)
  {
    var r := IdDiff(data, success);
    assert Ids(r) == Ids(data);
    forall x ensures x in r <==> x in data {
      if x in data {
        assert x.ident in Ids(r);
        var k :| 0 <= k < |r| && r[k].ident == x.ident;
        SameIdentSameItem(data, x, r[k]);
      }
    }
    DistinctIdsCard(r);
    DistinctIdsCard(data);
    DistinctNoDuplicates(r);
    DistinctNoDuplicates(data);
    SameItemsReorder(r, data);
  }

  /** Every item is either kept or rejected. */
  lemma {:induction false} FilterSplitLength<V>(keep: Obj<V> -> bool, s: seq<Obj<V>>)
    ensures |Filter(keep, s)| + |Filter(Rejects(keep), s)| == |s|
    decreases |s|
  {
    if s != [] {
      FilterSplitLength(keep, s[..|s| - 1]);
    }
  }

  /** The value of an object. */
  function ValOf<V>(): Obj<V> -> V
  {
    (o: Obj<V>) => o.val
  }

  /** The values of `s`, position by position. */
  function ValSeq<V>(s: seq<Obj<V>>): (r: seq<V>)
    ensures |r| == |s|
    ensures forall i :: 0 <= i < |s| ==> r[i] == s[i].val
  {
    MapSeq(ValOf(), s)
  }

  /** Lists whose values agree up to order have the same length and the
      same value set. */
  lemma SameValSeqs<V>(a: seq<Obj<V>>, b: seq<Obj<V>>)
    requires multiset(ValSeq(a)) == multiset(ValSeq(b))
    ensures |a| == |b| && Vals(a) == Vals(b)
  {
    assert |ValSeq(a)| == |multiset(ValSeq(a))|;
    assert |ValSeq(b)| == |multiset(ValSeq(b))|;
    forall v ensures v in Vals(a) <==> v in Vals(b) {
      if v in Vals(a) {
        var x :| x in a && x.val == v;
        var i :| 0 <= i < |a| && a[i] == x;
        assert v in multiset(ValSeq(a)) by { assert ValSeq(a)[i] == v; }
        assert v in ValSeq(b);
        var j :| 0 <= j < |b| && ValSeq(b)[j] == v;
        assert b[j] in b;
      }
      if v in Vals(b) {
        var x :| x in b && x.val == v;
        var i :| 0 <= i < |b| && b[i] == x;
        assert v in multiset(ValSeq(b)) by { assert ValSeq(b)[i] == v; }
        assert v in ValSeq(a);
        var j :| 0 <= j < |a| && ValSeq(a)[j] == v;
        assert a[j] in a;
      }
    }
  }

  /** `set(l1) - set(l2)` looks at the values of `l2` only: value-equal
      copies in place of the original objects give the same difference. */
  lemma {:induction false} ValueDiffByVals<V>(l1: seq<Obj<V>>, s1: seq<Obj<V>>, s2: seq<Obj<V>>)
    requires Vals(s1) == Vals(s2)
    ensures ValueDiff(l1, s1) == ValueDiff(l1, s2)
    decreases |l1|
  {
    if l1 != [] {
      ValueDiffByVals(l1[..|l1| - 1], s1, s2);
    }
  }

  /** Concatenating hashable lists gives a hashable list. */
  lemma {:induction false} FlattenHashable<V>(ss: seq<seq<Obj<V>>>)
    requires forall i :: 0 <= i < |ss| ==> AllHashable(ss[i])
    ensures AllHashable(Flatten(ss))
    decreases |ss|
  {
    if ss != [] {
      var ss' := ss[..|ss| - 1];
      FlattenHashable(ss');
      assert forall x :: x in Flatten(ss) ==> x in Flatten(ss') || x in ss[|ss| - 1];
    }
  }

  /** The verdict and fail list of a run whose success list holds, up to
      order, hashable objects with the values of the items `keep` accepts
      (the original objects or copies of them), for distinct hashable input
      values: a complete run exactly when every item is accepted, and
      otherwise a fail list holding each rejected item once. */
  lemma FilteredVerdict<V>(data: seq<Obj<V>>, success: seq<Obj<V>>, keep: Obj<V> -> bool)
    requires AllHashable(data) && DistinctVals(data) && AllHashable(success)
    requires multiset(ValSeq(success)) == multiset(ValSeq(Filter(keep, data)))
    ensures |success| == |data| <==> forall i :: 0 <= i < |data| ==> keep(data[i])
    ensures |success| == |data| ==> Filter(Rejects(keep), data) == []
    ensures |success| != |data| ==>
      && multiset(ValueDiff(data, success)) == multiset(Filter(Rejects(keep), data))
      && |ValueDiff(data, success)| + |Filter(keep, data)| == |data|
  {
    var kept := Filter(keep, data);
    SameValSeqs(success, kept);
    FilterKeepsAll(keep, data);
    FilterSplitLength(keep, data);
    ValueDiffByVals(data, success, kept);
    ValueDiffOfFilter(data, kept, keep);
    var r := ValueDiff(data, success);
    assert |r| == |Filter(Rejects(keep), data)| by {
      assert |r| == |multiset(r)|;
      assert |Filter(Rejects(keep), data)| == |multiset(Filter(Rejects(keep), data))|;
    }
  }
}
