/** The aggregation loop of `runMulti` and `runMultiAsync`
    (rcsb/utils/multiproc/MultiProcPoolUtil.py, lines 115-120 and 189-194):
    for each worker tuple `retTup`, in the order the pool delivers them,
    `successList.extend(retTup[0])`, `retLists[ii].extend(retTup[ii + 1])`
    for every result channel `ii`, and `diagList.extend(retTup[-1])`.
    A tuple that is too short raises `IndexError` part way through, and a
    worker exception re-raised by the pool's iterator stops the loop too;
    the lists then keep what had been added so far. */
module Aggregation {
  import opened Seqs

  /** One worker call as the loop receives it: the returned tuple, as the
      list of its components, or an exception raised by the worker. */
  datatype WorkerResult<T> = Returned(parts: seq<seq<T>>) | Raised

  /** The loop's state: `successList`, `retLists`, `diagList`, and whether
      an exception ended the loop. */
  datatype Collected<T> = Collected(successList: seq<T>, retLists: seq<seq<T>>, diagList: seq<T>, raised: bool)

  /** How many result lists `[[] for ii in range(numResults)]` makes. */
  function Channels(numResults: int): nat
  {
    if numResults < 0 then 0 else numResults
  }

  /** The tuple has every component the loop reads, `retTup[0]` to
      `retTup[n]`, so the loop body runs to completion on it. */
  predicate Fits<T>(res: WorkerResult<T>, n: nat)
  {
    res.Returned? && |res.parts| >= n + 1
  }

  /** Component `k` of a tuple, or nothing. */
  function Part<T>(k: nat): WorkerResult<T> -> seq<T>
  {
    (res: WorkerResult<T>) => if res.Returned? && k < |res.parts| then res.parts[k] else []
  }

  /** The last component `retTup[-1]` of a tuple, or nothing. */
  function LastPart<T>(): WorkerResult<T> -> seq<T>
  {
    (res: WorkerResult<T>) => if res.Returned? && |res.parts| > 0 then res.parts[|res.parts| - 1] else []
  }

  /** `n` empty result lists. */
  function EmptyLists<T>(n: nat): (r: seq<seq<T>>)
    ensures |r| == n
    ensures forall k :: 0 <= k < n ==> r[k] == []
  {
    seq(n, _ => [])
  }

  /** One pass of the loop body over `res`. */
  function Step<T>(c: Collected<T>, res: WorkerResult<T>, n: nat): (r: Collected<T>)
    requires !c.raised && |c.retLists| == n
    ensures |r.retLists| == n
    ensures r.raised <==> !Fits(res, n)
  {
    match res
    case Raised => c.(raised := true)
    case Returned(parts) =>
      if |parts| == 0 then c.(raised := true)
      else
        var m := if n <= |parts| - 1 then n else |parts| - 1;
        var lists := seq(n, k requires 0 <= k < n => if k < m then c.retLists[k] + parts[k + 1] else c.retLists[k]);
        if |parts| < n + 1 then Collected(c.successList + parts[0], lists, c.diagList, true)
        else Collected(c.successList + parts[0], lists, c.diagList + parts[|parts| - 1], false)
  }

  /** The loop over a whole delivery order: the specification of `Collect`. */
  function Gather<T>(rs: seq<WorkerResult<T>>, n: nat): (c: Collected<T>)
    ensures |c.retLists| == n
    decreases |rs|
  {
    if rs == [] then Collected([], EmptyLists(n), [], false)
    else
      var prev := Gather(rs[..|rs| - 1], n);
      if prev.raised then prev else Step(prev, rs[|rs| - 1], n)
  }

  /** Once an exception has ended the loop, later tuples change nothing. */
  lemma {:induction false} GatherStaysRaised<T>(rs: seq<WorkerResult<T>>, n: nat, j: nat)
    requires j <= |rs| && Gather(rs[..j], n).raised
    ensures Gather(rs, n) == Gather(rs[..j], n)
    decreases |rs| - j
  {
    if j < |rs| {
      assert rs[..j + 1][..j] == rs[..j];
      GatherStaysRaised(rs, n, j + 1);
    } else {
      assert rs[..j] == rs;
    }
  }

  /** Adding one tuple to a prefix of the delivery order. */
  lemma GatherSnoc<T>(rs: seq<WorkerResult<T>>, n: nat, i: nat)
    requires i < |rs| && !Gather(rs[..i], n).raised
    ensures Gather(rs[..i + 1], n) == Step(Gather(rs[..i], n), rs[i], n)
  {
    assert rs[..i + 1][..i] == rs[..i];
  }

  /** What one completed or interrupted pass of the loop body leaves behind,
      given the result lists as they stand when the pass ends. */
  lemma StepShape<T>(c: Collected<T>, parts: seq<seq<T>>, n: nat, lists: seq<seq<T>>)
    requires !c.raised && |c.retLists| == n && |parts| >= 1 && |lists| == n
    requires forall k :: 0 <= k < n ==>
      lists[k] == if k < n && k < |parts| - 1 then c.retLists[k] + parts[k + 1] else c.retLists[k]
    ensures Step(c, Returned(parts), n)
         == Collected(c.successList + parts[0], lists,
                      if |parts| < n + 1 then c.diagList else c.diagList + parts[|parts| - 1],
                      |parts| < n + 1)
  {
  }

  /** The loop, as the source writes it. */
  method Collect<T>(retTupList: seq<WorkerResult<T>>, numResults: int) returns (c: Collected<T>)
    ensures c == Gather(retTupList, Channels(numResults))
  {
    var n := Channels(numResults);
    var successList: seq<T> := [];
    var diagList: seq<T> := [];
    var retLists: seq<seq<T>> := EmptyLists(n);
    var i := 0;
    assert retTupList[..0] == [];
    while i < |retTupList|
      invariant 0 <= i <= |retTupList|
      invariant Gather(retTupList[..i], n) == Collected(successList, retLists, diagList, false)
    {
      var retTup := retTupList[i];
      GatherSnoc(retTupList, n, i);
      if retTup.Raised? || |retTup.parts| == 0 {
        c := Collected(successList, retLists, diagList, true);
        GatherStaysRaised(retTupList, n, i + 1);
        return;
      }
      ghost var prev := Collected(successList, retLists, diagList, false);
      var parts := retTup.parts;
      successList := successList + parts[0];
      var ii := 0;
      while ii < n
        invariant 0 <= ii <= n && ii < |parts|
        invariant |retLists| == n
        invariant forall k :: 0 <= k < n ==>
          retLists[k] == if k < ii then prev.retLists[k] + parts[k + 1] else prev.retLists[k]
      {
        if ii + 1 >= |parts| {
          c := Collected(successList, retLists, diagList, true);
          StepShape(prev, parts, n, retLists);
          GatherStaysRaised(retTupList, n, i + 1);
          return;
        }
        retLists := retLists[ii := retLists[ii] + parts[ii + 1]];
        ii := ii + 1;
      }
      StepShape(prev, parts, n, retLists);
      diagList := diagList + parts[|parts| - 1];
      i := i + 1;
    }
    assert retTupList[..i] == retTupList;
    c := Collected(successList, retLists, diagList, false);
  }

  /** Every tuple fits: nothing is raised, and each list is the
      concatenation of the matching component of every tuple in delivery
      order (diagnostics are concatenated, never de-duplicated). */
  lemma {:induction false} GatherFits<T>(rs: seq<WorkerResult<T>>, n: nat)
    requires forall i :: 0 <= i < |rs| ==> Fits(rs[i], n)
    ensures !Gather(rs, n).raised
    ensures Gather(rs, n).successList == Flatten(MapSeq(Part(0), rs))
    ensures forall k :: 0 <= k < n ==> Gather(rs, n).retLists[k] == Flatten(MapSeq(Part(k + 1), rs))
    ensures Gather(rs, n).diagList == Flatten(MapSeq(LastPart(), rs))
    decreases |rs|
  {
    if rs != [] {
      var rs' := rs[..|rs| - 1];
      var last := rs[|rs| - 1];
      GatherFits(rs', n);
      var prev := Gather(rs', n);
      StepShape(prev, last.parts, n, seq(n, k requires 0 <= k < n => prev.retLists[k] + last.parts[k + 1]));
      FlattenMapSnoc(Part(0), rs);
      FlattenMapSnoc(LastPart(), rs);
      forall k | 0 <= k < n
        ensures Gather(rs, n).retLists[k] == Flatten(MapSeq(Part(k + 1), rs))
      {
        FlattenMapSnoc(Part(k + 1), rs);
      }
    }
  }

  /** The loop ends on an exception exactly when some tuple does not fit
      (the worker raised, or returned too few components). */
  lemma {:induction false} GatherRaised<T>(rs: seq<WorkerResult<T>>, n: nat)
    ensures Gather(rs, n).raised <==> exists i :: 0 <= i < |rs| && !Fits(rs[i], n)
    decreases |rs|
  {
    if rs != [] {
      var rs' := rs[..|rs| - 1];
      GatherRaised(rs', n);
      if exists i :: 0 <= i < |rs'| && !Fits(rs'[i], n) {
        var i :| 0 <= i < |rs'| && !Fits(rs'[i], n);
        assert rs[i] == rs'[i];
      }
      if exists i :: 0 <= i < |rs| && !Fits(rs[i], n) {
        var i :| 0 <= i < |rs| && !Fits(rs[i], n);
        assert i < |rs'| ==> rs'[i] == rs[i];
      }
    }
  }

  /** When tuple `j` is the first that does not fit, the loop stops in its
      body: the lists hold everything from the tuples before it, plus what
      the interrupted pass had already added, and no diagnostics of it. */
  lemma GatherStops<T>(rs: seq<WorkerResult<T>>, n: nat, j: nat)
    requires j < |rs| && !Fits(rs[j], n)
    requires forall i :: 0 <= i < j ==> Fits(rs[i], n)
    ensures Gather(rs, n).raised && !Gather(rs[..j], n).raised
    ensures Gather(rs, n) == Step(Gather(rs[..j], n), rs[j], n)
    ensures Gather(rs, n).diagList == Flatten(MapSeq(LastPart(), rs[..j]))
    ensures forall k :: 0 <= k < n ==> Flatten(MapSeq(Part(k + 1), rs[..j])) <= Gather(rs, n).retLists[k]
  {
    GatherFits(rs[..j], n);
    GatherSnoc(rs, n, j);
    GatherStaysRaised(rs, n, j + 1);
  }

  /** Multiset-equal sequences hold the same elements. */
  lemma SameElements<X>(a: seq<X>, b: seq<X>)
    requires multiset(a) == multiset(b)
    ensures forall i :: 0 <= i < |a| ==> a[i] in b
    ensures forall i :: 0 <= i < |b| ==> b[i] in a
  {
    forall i | 0 <= i < |a| ensures a[i] in b {
      assert a[i] in multiset(a);
    }
    forall i | 0 <= i < |b| ensures b[i] in a {
      assert b[i] in multiset(b);
    }
  }

  /** The loop's verdict and the contents of its lists, up to order, do not
      depend on the order in which the pool delivers the tuples. */
  lemma GatherReorder<T>(rs1: seq<WorkerResult<T>>, rs2: seq<WorkerResult<T>>, n: nat)
    requires multiset(rs1) == multiset(rs2)
    ensures Gather(rs1, n).raised == Gather(rs2, n).raised
    ensures !Gather(rs1, n).raised ==>
      && multiset(Gather(rs1, n).successList) == multiset(Gather(rs2, n).successList)
      && (forall k :: 0 <= k < n ==> multiset(Gather(rs1, n).retLists[k]) == multiset(Gather(rs2, n).retLists[k]))
      && multiset(Gather(rs1, n).diagList) == multiset(Gather(rs2, n).diagList)
  {
    GatherRaised(rs1, n);
    GatherRaised(rs2, n);
    SameElements(rs1, rs2);
    if forall i :: 0 <= i < |rs1| ==> Fits(rs1[i], n) {
      GatherReorderFitting(rs1, rs2, n);
    } else {
      var i :| 0 <= i < |rs1| && !Fits(rs1[i], n);
      var i' :| 0 <= i' < |rs2| && rs2[i'] == rs1[i];
    }
  }

  lemma GatherReorderFitting<T>(rs1: seq<WorkerResult<T>>, rs2: seq<WorkerResult<T>>, n: nat)
    requires multiset(rs1) == multiset(rs2)
    requires forall i :: 0 <= i < |rs1| ==> Fits(rs1[i], n)
    ensures !Gather(rs1, n).raised && !Gather(rs2, n).raised
    ensures multiset(Gather(rs1, n).successList) == multiset(Gather(rs2, n).successList)
    ensures forall k :: 0 <= k < n ==> multiset(Gather(rs1, n).retLists[k]) == multiset(Gather(rs2, n).retLists[k])
    ensures multiset(Gather(rs1, n).diagList) == multiset(Gather(rs2, n).diagList)
  {
    SameElements(rs1, rs2);
    assert forall i :: 0 <= i < |rs2| ==> Fits(rs2[i], n);
    GatherFits(rs1, n);
    GatherFits(rs2, n);
    FlattenMapReorder(Part(0), rs1, rs2);
    FlattenMapReorder(LastPart(), rs1, rs2);
    forall k | 0 <= k < n
      ensures multiset(Gather(rs1, n).retLists[k]) == multiset(Gather(rs2, n).retLists[k])
    {
      FlattenMapReorder(Part(k + 1), rs1, rs2);
    }
  }

  /** Tuples whose result components each match their success component
      item for item keep the result lists parallel to `successList`. */
  predicate Aligned<T>(res: WorkerResult<T>, n: nat)
  {
    Fits(res, n) && forall k :: 1 <= k <= n ==> |res.parts[k]| == |res.parts[0]|
  }

  lemma GatherParallel<T>(rs: seq<WorkerResult<T>>, n: nat)
    requires forall i :: 0 <= i < |rs| ==> Aligned(rs[i], n)
    ensures !Gather(rs, n).raised
    ensures forall k :: 0 <= k < n ==> |Gather(rs, n).retLists[k]| == |Gather(rs, n).successList|
  {
    GatherFits(rs, n);
    forall k | 0 <= k < n
      ensures |Gather(rs, n).retLists[k]| == |Gather(rs, n).successList|
    {
      FlattenSameLengths(MapSeq(Part(k + 1), rs), MapSeq(Part(0), rs));
    }
  }
}
