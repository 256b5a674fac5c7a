/** What `runMulti` and `runMultiAsync` return, as functions of the pool's
    configuration, the input list and the parameters
    (rcsb/utils/multiproc/MultiProcPoolUtil.py, lines 64-211). The class in
    `MultiProcPool` computes these step by step; the lemmas here say what
    the results mean. */
module PoolEngine {
  import opened Wrappers
  import opened Seqs
  import opened PyObjects
  import opened FailSets
  import opened Partitioning
  import opened PoolParameters
  import opened Aggregation

  /** A worker method, called as `workerFunc(subList, procName=..., optionsD=..., workingDir=...)`.
      Its tuple components are all modelled as lists of objects. */
  type Worker<!V, !O> = (seq<Obj<V>>, string, map<string, O>, string) -> WorkerResult<Obj<V>>

  /** The instance state a run reads: the bound worker (unset until `set`
      succeeds), the options dictionary and the working directory. */
  datatype Config<!V, !O> = Config(workerFunc: Option<Worker<V, O>>, optionsD: map<string, O>, workingDir: string)

  /** The returned tuple `(successFlag, failList, retLists, diagList)`. */
  datatype RunResult<V> = RunResult(ok: bool, failList: seq<Obj<V>>, retLists: seq<seq<Obj<V>>>, diagList: seq<Obj<V>>)

  /** The `procName` every worker call receives. */
  const ProcName: string := "worker"

  /** The result when the `try` block raises before the aggregation loop:
      nothing has been collected yet. */
  function Failure<V>(): RunResult<V>
  {
    RunResult(false, [], [], [])
  }

  /** The `try` block reaches the pool: `len(dataList)` does not raise on
      `None`, `partial` gets a callable, and `Pool(processes=numProc)` gets
      at least one process. */
  predicate Dispatchable<V, O>(cfg: Config<V, O>, data: Option<seq<Obj<V>>>, numProc: int, cpuCount: CpuCount)
    ensures Dispatchable(cfg, data, numProc, cpuCount) <==>
      data.Some? && cfg.workerFunc.Some? && |data.value| > 0
  {
    data.Some? && cfg.workerFunc.Some? && WorkerCount(numProc, cpuCount, |data.value|) >= 1
  }

  /** `[dataList[i::numLists] for i in range(numLists)]`. */
  function SubLists<V>(data: seq<Obj<V>>, numProc: int, chunkSize: int, cpuCount: CpuCount): (subs: seq<seq<Obj<V>>>)
  {
    RoundRobin(data, ListCount(numProc, chunkSize, cpuCount, |data|))
  }

  /** `pFunc(subList)`, the bound partial applied to one sublist. */
  function Call<V, O>(cfg: Config<V, O>, sub: seq<Obj<V>>): WorkerResult<Obj<V>>
    requires cfg.workerFunc.Some?
  {
    cfg.workerFunc.value(sub, ProcName, cfg.optionsD, cfg.workingDir)
  }

  /** The worker results in submission order, one per sublist. */
  function Dispatched<V, O>(cfg: Config<V, O>, data: seq<Obj<V>>, numProc: int, chunkSize: int, cpuCount: CpuCount): (rs: seq<WorkerResult<Obj<V>>>)
    requires cfg.workerFunc.Some?
    ensures |rs| == |SubLists(data, numProc, chunkSize, cpuCount)|
    ensures forall i :: 0 <= i < |rs| ==> rs[i] == Call(cfg, SubLists(data, numProc, chunkSize, cpuCount)[i])
  {
    MapSeq(sub => Call(cfg, sub), SubLists(data, numProc, chunkSize, cpuCount))
  }

  /** `imap_unordered` hands the results over in completion order: any
      reordering of the dispatched results. Nothing is delivered when the
      run fails before reaching the pool. */
  ghost predicate IsDelivery<V, O>(cfg: Config<V, O>, data: Option<seq<Obj<V>>>, numProc: int, chunkSize: int,
                                      cpuCount: CpuCount, delivered: seq<WorkerResult<Obj<V>>>)
  {
    if Dispatchable(cfg, data, numProc, cpuCount)
    then multiset(delivered) == multiset(Dispatched(cfg, data.value, numProc, chunkSize, cpuCount))
    else delivered == []
  }

  /** The tail of both methods once the loop has run: an exception in the
      loop returns what had been collected with an empty fail list; a
      success count equal to the input length is a complete run; anything
      else is an incomplete run with `failList`. */
  function Verdict<V>(data: seq<Obj<V>>, c: Collected<Obj<V>>, failList: seq<Obj<V>>): (r: RunResult<V>)
  {
    if c.raised then RunResult(false, [], c.retLists, c.diagList)
    else if |data| == |c.successList| then RunResult(true, [], c.retLists, c.diagList)
    else RunResult(false, failList, c.retLists, c.diagList)
  }

  /** The verdict compares lengths only: a success list as long as the
      input counts as a complete run even when it misses an input item
      (here it reports `a` twice and `b` never). */
  lemma VerdictCountsLength()
    ensures var a, b := Obj(0, 1, true), Obj(1, 2, true);
            var c := Collected([a, a], [], [], false);
      b !in c.successList && Verdict([a, b], c, []).ok
  {
  }

  /** `runMulti`'s fail list: `list(set(dataList) - set(successList))`,
      which raises `TypeError` (caught, leaving `failList = []`) when an
      item of either list is unhashable. */
  function MultiFailList<V(==)>(data: seq<Obj<V>>, success: seq<Obj<V>>): (f: seq<Obj<V>>)
    ensures AllHashable(data) && AllHashable(success) ==> IsValueDiff(data, success, f)
    ensures !(AllHashable(data) && AllHashable(success)) ==> f == []
  {
    if AllHashable(data) && AllHashable(success) then ValueDiff(data, success) else []
  }

  /** `runMulti`: the result for the delivery order `delivered`. */
  function RunMultiOutcome<V(==), O>(cfg: Config<V, O>, data: Option<seq<Obj<V>>>, numProc: int, numResults: int,
                                     chunkSize: int, cpuCount: CpuCount, delivered: seq<WorkerResult<Obj<V>>>): (r: RunResult<V>)
    ensures data.None? || cfg.workerFunc.None? || data == Some([]) ==> r == Failure()
    ensures r.ok <==>
      && Dispatchable(cfg, data, numProc, cpuCount)
      && !Gather(delivered, Channels(numResults)).raised
      && |Gather(delivered, Channels(numResults)).successList| == |data.value|
    ensures r.ok ==> r.failList == []
    ensures Dispatchable(cfg, data, numProc, cpuCount) ==> |r.retLists| == Channels(numResults)
  {
    if !Dispatchable(cfg, data, numProc, cpuCount) then Failure()
    else
      var c := Gather(delivered, Channels(numResults));
      Verdict(data.value, c, MultiFailList(data.value, c.successList))
  }

  /** Some worker call raised: `map_async(...).get()` re-raises it. */
  predicate SomeRaised<T>(rs: seq<WorkerResult<T>>)
  {
    exists i :: 0 <= i < |rs| && rs[i].Raised?
  }

  /** `runMultiAsync`: results come back in submission order, and a worker
      exception fails the run before anything is collected. */
  function RunMultiAsyncOutcome<V(==), O>(cfg: Config<V, O>, data: Option<seq<Obj<V>>>, numProc: int, numResults: int,
                                          chunkSize: int, cpuCount: CpuCount): (r: RunResult<V>)
    ensures data.None? || cfg.workerFunc.None? || data == Some([]) ==> r == Failure()
    ensures Dispatchable(cfg, data, numProc, cpuCount) && SomeRaised(Dispatched(cfg, data.value, numProc, chunkSize, cpuCount))
            ==> r == Failure()
    ensures r.ok ==> r.failList == []
    ensures r.ok ==> |r.retLists| == Channels(numResults)
  {
    if !Dispatchable(cfg, data, numProc, cpuCount) then Failure()
    else
      var rs := Dispatched(cfg, data.value, numProc, chunkSize, cpuCount);
      if SomeRaised(rs) then Failure()
      else
        var c := Gather(rs, Channels(numResults));
        Verdict(data.value, c, DiffList(data.value, c.successList))
  }

  /** The sublists partition the input: there is at least one, none is
      empty, their lengths differ by at most one, sublist `i` holds the
      items at positions `i`, `i + numLists`, `i + 2 * numLists`, ..., and
      together they hold every item exactly as often as the input does. */
  lemma SubListsPartition<V>(data: seq<Obj<V>>, numProc: int, chunkSize: int, cpuCount: CpuCount)
    requires |data| > 0
    ensures 1 <= |SubLists(data, numProc, chunkSize, cpuCount)| <= |data|
    ensures multiset(Flatten(SubLists(data, numProc, chunkSize, cpuCount))) == multiset(data)
    ensures var subs := SubLists(data, numProc, chunkSize, cpuCount);
      && (forall i :: 0 <= i < |subs| ==> |subs[i]| >= 1)
      && (forall i, j :: 0 <= i < |subs| && 0 <= j < |subs| ==> |subs[i]| <= |subs[j]| + 1)
    ensures Strided(SubLists(data, numProc, chunkSize, cpuCount), data)
  {
    var n := ListCount(numProc, chunkSize, cpuCount, |data|);
    RoundRobinCoverage(data, n);
    RoundRobinBalanced(data, n);
    RoundRobinPlacement(data, n);
  }

  /** Multiset-equal sequences have equal lengths. */
  lemma SameLength<X>(a: seq<X>, b: seq<X>)
    requires multiset(a) == multiset(b)
    ensures |a| == |b|
  {
    assert |a| == |multiset(a)|;
    assert |b| == |multiset(b)|;
  }

  /** A worker that succeeds on every item of a sublist and returns
      `numResults` result lists item for item beside the success list. */
  predicate ReportsAll<V, O>(cfg: Config<V, O>, subs: seq<seq<Obj<V>>>, n: nat)
  {
    && cfg.workerFunc.Some?
    && forall i :: 0 <= i < |subs| ==>
         Aligned(Call(cfg, subs[i]), n) && |Call(cfg, subs[i]).parts[0]| == |subs[i]|
  }

  /** A complete run: when every worker call reports all its items as
      successful, `runMulti` succeeds, in whatever order the results
      arrive, with an empty fail list and `numResults` result lists that
      each have one entry per input item. */
  lemma MultiComplete<V, O>(cfg: Config<V, O>, data: Option<seq<Obj<V>>>, numProc: int, numResults: int,
                                chunkSize: int, cpuCount: CpuCount, delivered: seq<WorkerResult<Obj<V>>>)
    requires Dispatchable(cfg, data, numProc, cpuCount)
    requires IsDelivery(cfg, data, numProc, chunkSize, cpuCount, delivered)
    requires ReportsAll(cfg, SubLists(data.value, numProc, chunkSize, cpuCount), Channels(numResults))
    ensures var r := RunMultiOutcome(cfg, data, numProc, numResults, chunkSize, cpuCount, delivered);
      && r.ok && r.failList == []
      && |r.retLists| == Channels(numResults)
      && forall k :: 0 <= k < |r.retLists| ==> |r.retLists[k]| == |data.value|
  {
    var n := Channels(numResults);
    var subs := SubLists(data.value, numProc, chunkSize, cpuCount);
    var rs := Dispatched(cfg, data.value, numProc, chunkSize, cpuCount);
    assert forall i :: 0 <= i < |rs| ==> Aligned(rs[i], n);
    SameElements(delivered, rs);
    assert forall i :: 0 <= i < |delivered| ==> Aligned(delivered[i], n);
    GatherParallel(delivered, n);
    GatherReorderFitting(rs, delivered, n);
    GatherFits(rs, n);
    FlattenSameLengths(MapSeq(Part(0), rs), subs);
    SubListsPartition(data.value, numProc, chunkSize, cpuCount);
    SameLength(Flatten(subs), data.value);
    SameLength(Gather(rs, n).successList, Gather(delivered, n).successList);
  }

  /** A worker that reports as successful exactly the items of its sublist
      that `keep` accepts, in order. The items it hands back need only have
      the accepted items' values and be hashable: results sent back from a
      worker process are unpickled as new objects. */
  ghost predicate FiltersBy<V, O>(cfg: Config<V, O>, subs: seq<seq<Obj<V>>>, n: nat, keep: Obj<V> -> bool)
  {
    && cfg.workerFunc.Some?
    && forall i :: 0 <= i < |subs| ==>
         && Fits(Call(cfg, subs[i]), n)
         && AllHashable(Call(cfg, subs[i]).parts[0])
         && ValSeq(Call(cfg, subs[i]).parts[0]) == ValSeq(Filter(keep, subs[i]))
  }

  /** With such a worker the collected success list holds hashable objects
      with the values of the accepted items, in some order. */
  lemma FilteredSuccess<V, O>(cfg: Config<V, O>, data: seq<Obj<V>>, numProc: int, n: nat,
                                  chunkSize: int, cpuCount: CpuCount, delivered: seq<WorkerResult<Obj<V>>>, keep: Obj<V> -> bool)
    requires Dispatchable(cfg, Some(data), numProc, cpuCount)
    requires IsDelivery(cfg, Some(data), numProc, chunkSize, cpuCount, delivered)
    requires FiltersBy(cfg, SubLists(data, numProc, chunkSize, cpuCount), n, keep)
    ensures !Gather(delivered, n).raised
    ensures AllHashable(Gather(delivered, n).successList)
    ensures multiset(ValSeq(Gather(delivered, n).successList)) == multiset(ValSeq(Filter(keep, data)))
  {
    var subs := SubLists(data, numProc, chunkSize, cpuCount);
    var rs := Dispatched(cfg, data, numProc, chunkSize, cpuCount);
    assert forall i :: 0 <= i < |rs| ==>
      Fits(rs[i], n) && AllHashable(rs[i].parts[0]) && ValSeq(rs[i].parts[0]) == ValSeq(Filter(keep, subs[i]));
    SuccessColumn(rs, subs, n, keep);
    GatherReorderFitting(rs, delivered, n);
    var s1, s2 := Gather(rs, n).successList, Gather(delivered, n).successList;
    MapSeqReorder(ValOf(), s1, s2);
    forall x | x in s2 ensures x.hashable {
      assert x in multiset(s2);
    }
    SubListsPartition(data, numProc, chunkSize, cpuCount);
    FilterReorder(keep, Flatten(subs), data);
    MapSeqReorder(ValOf(), Filter(keep, Flatten(subs)), Filter(keep, data));
  }

  /** In submission order, the success list of filtering calls has the
      values of the filtered concatenation of the sublists. */
  lemma SuccessColumn<V>(rs: seq<WorkerResult<Obj<V>>>, subs: seq<seq<Obj<V>>>, n: nat, keep: Obj<V> -> bool)
    requires |rs| == |subs|
    requires forall i :: 0 <= i < |rs| ==>
      Fits(rs[i], n) && AllHashable(rs[i].parts[0]) && ValSeq(rs[i].parts[0]) == ValSeq(Filter(keep, subs[i]))
    ensures forall i :: 0 <= i < |rs| ==> Fits(rs[i], n)
    ensures AllHashable(Gather(rs, n).successList)
    ensures ValSeq(Gather(rs, n).successList) == ValSeq(Filter(keep, Flatten(subs)))
  {
    GatherFits(rs, n);
    var parts := MapSeq(Part(0), rs);
    var filtered := seq(|subs|, i requires 0 <= i < |subs| => Filter(keep, subs[i]));
    FilterFlatten(keep, subs, filtered);
    MapSeqFlatten(ValOf(), parts, filtered);
    FlattenHashable(parts);
  }

  /** The fail list, for a worker that accepts exactly the items `keep`
      accepts (handing back the objects or value-equal copies) and an
      input of distinct hashable values: the run succeeds
      exactly when every item is accepted, and otherwise the fail list
      holds each rejected item once, so its length is the number of items
      rejected. */
  lemma MultiFailSet<V, O>(cfg: Config<V, O>, data: Option<seq<Obj<V>>>, numProc: int, numResults: int,
                               chunkSize: int, cpuCount: CpuCount, delivered: seq<WorkerResult<Obj<V>>>, keep: Obj<V> -> bool)
    requires Dispatchable(cfg, data, numProc, cpuCount)
    requires IsDelivery(cfg, data, numProc, chunkSize, cpuCount, delivered)
    requires FiltersBy(cfg, SubLists(data.value, numProc, chunkSize, cpuCount), Channels(numResults), keep)
    requires AllHashable(data.value) && DistinctVals(data.value)
    ensures var r := RunMultiOutcome(cfg, data, numProc, numResults, chunkSize, cpuCount, delivered);
      && (r.ok <==> forall i :: 0 <= i < |data.value| ==> keep(data.value[i]))
      && multiset(r.failList) == multiset(Filter(Rejects(keep), data.value))
      && |r.failList| + |Filter(keep, data.value)| == |data.value|
  {
    var n := Channels(numResults);
    var d := data.value;
    var c := Gather(delivered, n);
    FilteredSuccess(cfg, d, numProc, n, chunkSize, cpuCount, delivered, keep);
    VerdictOfFiltered(d, c, keep);
    assert RunMultiOutcome(cfg, data, numProc, numResults, chunkSize, cpuCount, delivered)
        == Verdict(d, c, ValueDiff(d, c.successList));
  }

  /** Every call returns its result lists item for item beside its success list. */
  predicate AlignedCalls<V, O>(cfg: Config<V, O>, subs: seq<seq<Obj<V>>>, n: nat)
  {
    && cfg.workerFunc.Some?
    && forall i :: 0 <= i < |subs| ==> Aligned(Call(cfg, subs[i]), n)
  }

  /** The result lists of a run with a filtering worker that keeps its
      result lists parallel to its success list (as the test's reverser
      does): `numResults` lists, each with one entry per accepted item, in
      every delivery order. */
  lemma MultiFilteredLists<V, O>(cfg: Config<V, O>, data: Option<seq<Obj<V>>>, numProc: int, numResults: int,
                                     chunkSize: int, cpuCount: CpuCount, delivered: seq<WorkerResult<Obj<V>>>, keep: Obj<V> -> bool)
    requires Dispatchable(cfg, data, numProc, cpuCount)
    requires IsDelivery(cfg, data, numProc, chunkSize, cpuCount, delivered)
    requires FiltersBy(cfg, SubLists(data.value, numProc, chunkSize, cpuCount), Channels(numResults), keep)
    requires AlignedCalls(cfg, SubLists(data.value, numProc, chunkSize, cpuCount), Channels(numResults))
    ensures var r := RunMultiOutcome(cfg, data, numProc, numResults, chunkSize, cpuCount, delivered);
      && |r.retLists| == Channels(numResults)
      && forall k :: 0 <= k < |r.retLists| ==> |r.retLists[k]| == |Filter(keep, data.value)|
  {
    var n := Channels(numResults);
    FilteredLists(cfg, data.value, numProc, n, chunkSize, cpuCount, delivered, keep);
    assert RunMultiOutcome(cfg, data, numProc, numResults, chunkSize, cpuCount, delivered).retLists
        == Gather(delivered, n).retLists;
  }

  /** The loop's result lists for an aligned filtering worker, in any
      delivery order, each have one entry per accepted item. */
  lemma FilteredLists<V, O>(cfg: Config<V, O>, data: seq<Obj<V>>, numProc: int, n: nat,
                                chunkSize: int, cpuCount: CpuCount, delivered: seq<WorkerResult<Obj<V>>>, keep: Obj<V> -> bool)
    requires Dispatchable(cfg, Some(data), numProc, cpuCount)
    requires IsDelivery(cfg, Some(data), numProc, chunkSize, cpuCount, delivered)
    requires FiltersBy(cfg, SubLists(data, numProc, chunkSize, cpuCount), n, keep)
    requires AlignedCalls(cfg, SubLists(data, numProc, chunkSize, cpuCount), n)
    ensures !Gather(delivered, n).raised
    ensures forall k :: 0 <= k < n ==> |Gather(delivered, n).retLists[k]| == |Filter(keep, data)|
  {
    var rs := Dispatched(cfg, data, numProc, chunkSize, cpuCount);
    assert forall i :: 0 <= i < |rs| ==> Aligned(rs[i], n);
    SameElements(delivered, rs);
    assert forall i :: 0 <= i < |delivered| ==> Aligned(delivered[i], n);
    GatherParallel(delivered, n);
    FilteredSuccess(cfg, data, numProc, n, chunkSize, cpuCount, delivered, keep);
    SameValSeqs(Gather(delivered, n).successList, Filter(keep, data));
  }

  /** `Verdict` for a completed loop whose success list has, up to order,
      the values of the accepted items. */
  lemma VerdictOfFiltered<V>(d: seq<Obj<V>>, c: Collected<Obj<V>>, keep: Obj<V> -> bool)
    requires !c.raised && AllHashable(d) && DistinctVals(d) && AllHashable(c.successList)
    requires multiset(ValSeq(c.successList)) == multiset(ValSeq(Filter(keep, d)))
    ensures MultiFailList(d, c.successList) == ValueDiff(d, c.successList)
    ensures DiffList(d, c.successList) == ValueDiff(d, c.successList)
    ensures var r := Verdict(d, c, ValueDiff(d, c.successList));
      && (r.ok <==> forall i :: 0 <= i < |d| ==> keep(d[i]))
      && multiset(r.failList) == multiset(Filter(Rejects(keep), d))
      && |r.failList| + |Filter(keep, d)| == |d|
  {
    FilteredVerdict(d, c.successList, keep);
    FilterSplitLength(keep, d);
  }

  /** The delivery order changes neither the verdict nor the fail list
      (up to order), and when every tuple was complete it changes the
      result and diagnostic lists only by reordering. */
  lemma MultiOrderIndependent<V, O>(cfg: Config<V, O>, data: Option<seq<Obj<V>>>, numProc: int, numResults: int,
                                        chunkSize: int, cpuCount: CpuCount, d1: seq<WorkerResult<Obj<V>>>, d2: seq<WorkerResult<Obj<V>>>)
    requires IsDelivery(cfg, data, numProc, chunkSize, cpuCount, d1)
    requires IsDelivery(cfg, data, numProc, chunkSize, cpuCount, d2)
    ensures var r1 := RunMultiOutcome(cfg, data, numProc, numResults, chunkSize, cpuCount, d1);
            var r2 := RunMultiOutcome(cfg, data, numProc, numResults, chunkSize, cpuCount, d2);
      && r1.ok == r2.ok
      && multiset(r1.failList) == multiset(r2.failList)
      && |r1.retLists| == |r2.retLists|
      && ((forall i :: 0 <= i < |d1| ==> Fits(d1[i], Channels(numResults))) ==>
            && (forall k :: 0 <= k < |r1.retLists| ==> multiset(r1.retLists[k]) == multiset(r2.retLists[k]))
            && multiset(r1.diagList) == multiset(r2.diagList))
  {
    if Dispatchable(cfg, data, numProc, cpuCount) {
      var n := Channels(numResults);
      var d := data.value;
      GatherReorder(d1, d2, n);
      var c1, c2 := Gather(d1, n), Gather(d2, n);
      if !c1.raised {
        var s1, s2 := c1.successList, c2.successList;
        SameLength(s1, s2);
        SameElements(s1, s2);
        assert Vals(s1) == Vals(s2);
        assert AllHashable(s1) == AllHashable(s2);
        if AllHashable(d) && AllHashable(s1) {
          assert IsValueDiff(d, s2, ValueDiff(d, s1));
          ValueDiffUpToOrder(d, s2, ValueDiff(d, s1));
        }
      }
      if forall i :: 0 <= i < |d1| ==> Fits(d1[i], n) {
        GatherRaised(d1, n);
      }
    }
  }

  /** Without worker exceptions, `runMultiAsync` gives what `runMulti`
      gives for the submission order, except for the fail list of
      unhashable data, which only `runMultiAsync` computes (by identity). */
  lemma AsyncAgreesWithMulti<V, O>(cfg: Config<V, O>, data: Option<seq<Obj<V>>>, numProc: int, numResults: int,
                                       chunkSize: int, cpuCount: CpuCount)
    requires Dispatchable(cfg, data, numProc, cpuCount)
    requires !SomeRaised(Dispatched(cfg, data.value, numProc, chunkSize, cpuCount))
    ensures var rs := Dispatched(cfg, data.value, numProc, chunkSize, cpuCount);
            var m := RunMultiOutcome(cfg, data, numProc, numResults, chunkSize, cpuCount, rs);
            var a := RunMultiAsyncOutcome(cfg, data, numProc, numResults, chunkSize, cpuCount);
      && IsDelivery(cfg, data, numProc, chunkSize, cpuCount, rs)
      && a.ok == m.ok && a.retLists == m.retLists && a.diagList == m.diagList
      && (AllHashable(data.value) && AllHashable(Gather(rs, Channels(numResults)).successList) ==> a == m)
  {
  }

  /** The fail-list result for `runMultiAsync` with a filtering worker,
      which may hand back value-equal copies of the accepted items. */
  lemma AsyncFailSet<V, O>(cfg: Config<V, O>, data: Option<seq<Obj<V>>>, numProc: int, numResults: int,
                               chunkSize: int, cpuCount: CpuCount, keep: Obj<V> -> bool)
    requires Dispatchable(cfg, data, numProc, cpuCount)
    requires FiltersBy(cfg, SubLists(data.value, numProc, chunkSize, cpuCount), Channels(numResults), keep)
    requires AllHashable(data.value) && DistinctVals(data.value)
    ensures var r := RunMultiAsyncOutcome(cfg, data, numProc, numResults, chunkSize, cpuCount);
      && (r.ok <==> forall i :: 0 <= i < |data.value| ==> keep(data.value[i]))
      && multiset(r.failList) == multiset(Filter(Rejects(keep), data.value))
      && |r.failList| + |Filter(keep, data.value)| == |data.value|
  {
    var n := Channels(numResults);
    var rs := Dispatched(cfg, data.value, numProc, chunkSize, cpuCount);
    assert forall i :: 0 <= i < |rs| ==> Fits(rs[i], n);
    assert !SomeRaised(rs);
    var c := Gather(rs, n);
    FilteredSuccess(cfg, data.value, numProc, n, chunkSize, cpuCount, rs, keep);
    VerdictOfFiltered(data.value, c, keep);
    assert RunMultiAsyncOutcome(cfg, data, numProc, numResults, chunkSize, cpuCount)
        == Verdict(data.value, c, ValueDiff(data.value, c.successList));
  }

  /** The result lists of `runMultiAsync` with an aligned filtering worker. */
  lemma AsyncFilteredLists<V, O>(cfg: Config<V, O>, data: Option<seq<Obj<V>>>, numProc: int, numResults: int,
                                     chunkSize: int, cpuCount: CpuCount, keep: Obj<V> -> bool)
    requires Dispatchable(cfg, data, numProc, cpuCount)
    requires FiltersBy(cfg, SubLists(data.value, numProc, chunkSize, cpuCount), Channels(numResults), keep)
    requires AlignedCalls(cfg, SubLists(data.value, numProc, chunkSize, cpuCount), Channels(numResults))
    ensures var r := RunMultiAsyncOutcome(cfg, data, numProc, numResults, chunkSize, cpuCount);
      && |r.retLists| == Channels(numResults)
      && forall k :: 0 <= k < |r.retLists| ==> |r.retLists[k]| == |Filter(keep, data.value)|
  {
    var n := Channels(numResults);
    var rs := Dispatched(cfg, data.value, numProc, chunkSize, cpuCount);
    assert !SomeRaised(rs) by {
      assert forall i :: 0 <= i < |rs| ==> rs[i].Returned?;
    }
    FilteredLists(cfg, data.value, numProc, n, chunkSize, cpuCount, rs, keep);
    assert RunMultiAsyncOutcome(cfg, data, numProc, numResults, chunkSize, cpuCount).retLists
        == Gather(rs, n).retLists;
  }

  /** A complete run of `runMultiAsync`. */
  lemma AsyncComplete<V, O>(cfg: Config<V, O>, data: Option<seq<Obj<V>>>, numProc: int, numResults: int,
                                chunkSize: int, cpuCount: CpuCount)
    requires Dispatchable(cfg, data, numProc, cpuCount)
    requires ReportsAll(cfg, SubLists(data.value, numProc, chunkSize, cpuCount), Channels(numResults))
    ensures var r := RunMultiAsyncOutcome(cfg, data, numProc, numResults, chunkSize, cpuCount);
      && r.ok && r.failList == []
      && |r.retLists| == Channels(numResults)
      && forall k :: 0 <= k < |r.retLists| ==> |r.retLists[k]| == |data.value|
  {
    var rs := Dispatched(cfg, data.value, numProc, chunkSize, cpuCount);
    assert forall i :: 0 <= i < |rs| ==> rs[i].Returned?;
    AsyncAgreesWithMulti(cfg, data, numProc, numResults, chunkSize, cpuCount);
    MultiComplete(cfg, data, numProc, numResults, chunkSize, cpuCount, rs);
  }

  /** Worker results computed in another process come back as new objects.
      For unhashable data `runMultiAsync` then compares identities that
      never match, and an incomplete run lists every input item as failed. */
  lemma AsyncCopiesFailAll<V, O>(cfg: Config<V, O>, data: Option<seq<Obj<V>>>, numProc: int, numResults: int,
                                     chunkSize: int, cpuCount: CpuCount)
    requires Dispatchable(cfg, data, numProc, cpuCount)
    requires !AllHashable(data.value) && DistinctIds(data.value)
    requires var rs := Dispatched(cfg, data.value, numProc, chunkSize, cpuCount);
      && (forall i :: 0 <= i < |rs| ==> Fits(rs[i], Channels(numResults)))
      && Ids(data.value) !! Ids(Gather(rs, Channels(numResults)).successList)
    ensures var r := RunMultiAsyncOutcome(cfg, data, numProc, numResults, chunkSize, cpuCount);
      r.ok || multiset(r.failList) == multiset(data.value)
  {
    var n := Channels(numResults);
    var rs := Dispatched(cfg, data.value, numProc, chunkSize, cpuCount);
    assert !SomeRaised(rs) by {
      assert forall i :: 0 <= i < |rs| ==> rs[i].Returned?;
    }
    GatherFits(rs, n);
    IdDiffOfCopies(data.value, Gather(rs, n).successList);
  }
}
