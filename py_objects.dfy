/** Python objects as the engine sees them. The engine compares items in two
    ways: by value, through `set(...)` (which needs `hash()` to accept the
    item), and by identity, through `id(...)`. An object therefore carries an
    explicit identity token, its value, and whether it is hashable. */
module PyObjects {

  datatype Obj<V> = Obj(ident: nat, val: V, hashable: bool)

  /** The values occurring in `s`. */
  function Vals<V(==)>(s: seq<Obj<V>>): set<V>
  {
    set x | x in s :: x.val
  }

  /** The identities occurring in `s`. */
  function Ids<V(==)>(s: seq<Obj<V>>): set<nat>
  {
    set x | x in s :: x.ident
  }

  /** `set(s)` does not raise `TypeError`. */
  predicate AllHashable<V(==)>(s: seq<Obj<V>>)
  {
    forall x :: x in s ==> x.hashable
  }

  /** No two positions of `s` hold equal values. */
  predicate DistinctVals<V(==)>(s: seq<Obj<V>>)
  {
    forall i, j :: 0 <= i < j < |s| ==> s[i].val != s[j].val
  }

  /** No two positions of `s` hold the same object identity. */
  predicate DistinctIds<V(==)>(s: seq<Obj<V>>)
  {
    forall i, j :: 0 <= i < j < |s| ==> s[i].ident != s[j].ident
  }

  /** No two positions of `s` hold the same object. */
  predicate NoDuplicates<T(==)>(s: seq<T>)
  {
    forall i, j :: 0 <= i < j < |s| ==> s[i] != s[j]
  }

  lemma ValsAppend<V>(a: seq<Obj<V>>, b: seq<Obj<V>>)
    ensures Vals(a + b) == Vals(a) + Vals(b)
  {
    assert forall x :: x in a + b <==> x in a || x in b;
  }

  lemma IdsAppend<V>(a: seq<Obj<V>>, b: seq<Obj<V>>)
    ensures Ids(a + b) == Ids(a) + Ids(b)
  {
    assert forall x :: x in a + b <==> x in a || x in b;
  }

  /** A list without repeated values has as many values as items. */
  lemma {:induction false} DistinctValsCard<V>(s: seq<Obj<V>>)
    requires DistinctVals(s)
    ensures |Vals(s)| == |s|
    decreases |s|
  {
    if s != [] {
      var s', x := s[..|s| - 1], s[|s| - 1];
      LastValNew(s);
      assert s == s' + [x];
      ValsAppend(s', [x]);
      assert Vals([x]) == {x.val};
      DistinctValsCard(s');
    }
  }

  lemma LastValNew<V>(s: seq<Obj<V>>)
    requires DistinctVals(s) && s != []
    ensures DistinctVals(s[..|s| - 1])
    ensures s[|s| - 1].val !in Vals(s[..|s| - 1])
  {
    var s', x := s[..|s| - 1], s[|s| - 1];
    forall y | y in s' ensures y.val != x.val {
      var i :| 0 <= i < |s'| && s'[i] == y;
      assert s[i] == y;
    }
  }

  /** A list without repeated identities has as many identities as items. */
  lemma {:induction false} DistinctIdsCard<V>(s: seq<Obj<V>>)
    requires DistinctIds(s)
    ensures |Ids(s)| == |s|
    decreases |s|
  {
    if s != [] {
      var s', x := s[..|s| - 1], s[|s| - 1];
      LastIdentNew(s);
      assert s == s' + [x];
      IdsAppend(s', [x]);
      assert Ids([x]) == {x.ident};
      DistinctIdsCard(s');
    }
  }

  lemma LastIdentNew<V>(s: seq<Obj<V>>)
    requires DistinctIds(s) && s != []
    ensures DistinctIds(s[..|s| - 1])
    ensures s[|s| - 1].ident !in Ids(s[..|s| - 1])
  {
    var s', x := s[..|s| - 1], s[|s| - 1];
    forall y | y in s' ensures y.ident != x.ident {
      var i :| 0 <= i < |s'| && s'[i] == y;
      assert s[i] == y;
    }
  }

  /** Removing the item at position `j` of a duplicate-free list. */
  lemma RemoveAt<T>(t: seq<T>, j: nat)
    requires NoDuplicates(t) && j < |t|
    ensures NoDuplicates(t[..j] + t[j + 1..])
    ensures forall y :: y in t[..j] + t[j + 1..] <==> y in t && y != t[j]
    ensures multiset(t) == multiset(t[..j] + t[j + 1..]) + multiset{t[j]}
  {
    var t' := t[..j] + t[j + 1..];
    assert t == t[..j] + [t[j]] + t[j + 1..];
    assert forall i :: 0 <= i < |t'| ==> t'[i] == t[if i < j then i else i + 1];
    forall y ensures y in t' <==> y in t && y != t[j] {
      if y in t && y != t[j] {
        var k :| 0 <= k < |t| && t[k] == y;
        assert t'[if k < j then k else k - 1] == y;
      }
    }
  }

  /** Two duplicate-free lists of one length with the same items are reorderings of each other. */
  lemma {:induction false} SameItemsReorder<T>(s: seq<T>, t: seq<T>)
    requires NoDuplicates(s) && NoDuplicates(t)
    requires |s| == |t|
    requires forall x :: x in s <==> x in t
    ensures multiset(s) == multiset(t)
    decreases |s|
  {
    if s != [] {
      var x := s[|s| - 1];
      var s' := s[..|s| - 1];
      assert s == s' + [x];
      assert x in t;
      var j :| 0 <= j < |t| && t[j] == x;
      RemoveAt(t, j);
      RemoveAt(s, |s| - 1);
      assert s[..|s| - 1] + s[|s|..] == s';
      assert forall y :: y in s' <==> y in t[..j] + t[j + 1..] by {
        forall y ensures y in s' <==> y in t[..j] + t[j + 1..] {
          assert y in s' <==> y in s && y != x;
        }
      }
      SameItemsReorder(s', t[..j] + t[j + 1..]);
    }
  }

  /** In a list without repeated values, a value picks out one item. */
  lemma SameValSameItem<V>(s: seq<Obj<V>>, x: Obj<V>, y: Obj<V>)
    requires DistinctVals(s) && x in s && y in s && x.val == y.val
    ensures x == y
  {
    var i :| 0 <= i < |s| && s[i] == x;
    var j :| 0 <= j < |s| && s[j] == y;
    assert !(i < j) && !(j < i);
  }

  /** In a list without repeated identities, an identity picks out one item. */
  lemma SameIdentSameItem<V>(s: seq<Obj<V>>, x: Obj<V>, y: Obj<V>)
    requires DistinctIds(s) && x in s && y in s && x.ident == y.ident
    ensures x == y
  {
    var i :| 0 <= i < |s| && s[i] == x;
    var j :| 0 <= j < |s| && s[j] == y;
    assert !(i < j) && !(j < i);
  }

  lemma DistinctNoDuplicates<V>(s: seq<Obj<V>>)
    ensures DistinctVals(s) ==> NoDuplicates(s)
    ensures DistinctIds(s) ==> NoDuplicates(s)
  {
  }
}
