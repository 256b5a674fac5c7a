/** The class `MultiProcPoolUtil` (rcsb/utils/multiproc/MultiProcPoolUtil.py):
    the settings a caller installs, and the two run methods, which follow
    the source step by step and are proved to return what `PoolEngine`
    specifies. */
module MultiProcPool {
  import opened Wrappers
  import opened Seqs
  import opened PyObjects
  import opened FailSets
  import opened Partitioning
  import opened PoolParameters
  import opened Aggregation
  import opened PoolEngine

  class MultiProcPoolUtil<V(==), O> {
    var verbose: bool
    var workerFunc: Option<Worker<V, O>>
    var optionsD: map<string, O>
    var workingDir: string

    /** The settings a run hands to the worker. */
    function Settings(): Config<V, O>
      reads this
    {
      Config(workerFunc, optionsD, workingDir)
    }

    constructor(verbose: bool := true)
      ensures this.verbose == verbose
      ensures workerFunc == None && optionsD == map[] && workingDir == "."
    {
      this.verbose := verbose;
      workerFunc := None;
      optionsD := map[];
      workingDir := ".";
    }

    /** The options dictionary passed to every worker call. */
    method SetOptions(optionsD: map<string, O>)
      modifies this
      ensures this.optionsD == optionsD
      ensures verbose == old(verbose) && workerFunc == old(workerFunc) && workingDir == old(workingDir)
    {
      this.optionsD := optionsD;
    }

    /** The working directory passed to every worker call. */
    method SetWorkingDir(workingDir: string)
      modifies this
      ensures this.workingDir == workingDir
      ensures verbose == old(verbose) && workerFunc == old(workerFunc) && optionsD == old(optionsD)
    {
      this.workingDir := workingDir;
    }

    /** `set(workerObj, workerMethod)`: binds the attribute `workerMethod`
        of `workerObj`, given here by its attribute table. A missing
        attribute leaves the binding as it was and answers false. */
    method Set(workerObj: map<string, Worker<V, O>>, workerMethod: string) returns (ok: bool)
      modifies this
      ensures ok <==> workerMethod in workerObj
      ensures ok ==> workerFunc == Some(workerObj[workerMethod])
      ensures !ok ==> workerFunc == old(workerFunc)
      ensures verbose == old(verbose) && optionsD == old(optionsD) && workingDir == old(workingDir)
    {
      if workerMethod in workerObj {
        workerFunc := Some(workerObj[workerMethod]);
        ok := true;
      } else {
        ok := false;
      }
    }

    /** The argument handling shared by both run methods: the process
        count and the number of sublists, adjusted step by step. */
    method Plan(lenData: nat, numProc: int, chunkSize: int, cpuCount: CpuCount) returns (procs: nat, numLists: nat)
      ensures procs == WorkerCount(numProc, cpuCount, lenData)
      ensures numLists == ListCount(numProc, chunkSize, cpuCount, lenData)
    {
      var p := numProc;
      if p < 1 {
        p := cpuCount * 2;
      }
      p := Min(p, lenData);
      var chunk := Min(lenData, chunkSize);
      procs := p;
      if chunk <= 0 {
        numLists := procs;
      } else {
        numLists := lenData / chunk;
      }
    }

    /** `runMulti`, with the source's default arguments; `cpuCount` is what
        `multiprocessing.cpu_count()` returns. The pool's completion order is not under the caller's
        control: `delivered` is the order in which the results arrived,
        any reordering of the calls' results. */
    method RunMulti(dataList: Option<seq<Obj<V>>> := None, numProc: int := 0, numResults: int := 1, chunkSize: int := 10,
                    cpuCount: CpuCount)
      returns (r: RunResult<V>, delivered: seq<WorkerResult<Obj<V>>>)
      ensures IsDelivery(Settings(), dataList, numProc, chunkSize, cpuCount, delivered)
      ensures r == RunMultiOutcome(Settings(), dataList, numProc, numResults, chunkSize, cpuCount, delivered)
    {
      delivered := [];
      if dataList.None? {
        // len(None) raises TypeError
        return Failure(), delivered;
      }
      var data := dataList.value;
      var procs, numLists := Plan(|data|, numProc, chunkSize, cpuCount);
      var subLists := RoundRobin(data, numLists);
      if workerFunc.None? || procs < 1 {
        // partial(None, ...) raises TypeError; Pool(processes=0) raises ValueError
        return Failure(), delivered;
      }
      var pFunc, opts, wd := workerFunc.value, optionsD, workingDir;
      var dispatched := MapSeq(sub => pFunc(sub, ProcName, opts, wd), subLists);
      assert dispatched == Dispatched(Settings(), data, numProc, chunkSize, cpuCount);
      delivered :| multiset(delivered) == multiset(dispatched);
      var c := Collect(delivered, numResults);
      if c.raised {
        return RunResult(false, [], c.retLists, c.diagList), delivered;
      }
      if |data| == |c.successList| {
        return RunResult(true, [], c.retLists, c.diagList), delivered;
      }
      var failList := [];
      if AllHashable(data) && AllHashable(c.successList) {
        failList := ValueDiff(data, c.successList);
      }
      r := RunResult(false, failList, c.retLists, c.diagList);
    }

    /** `runMultiAsync`, whose default chunk size is 1: the results come
        back in submission order, and `get()` re-raises a worker's exception. */
    method RunMultiAsync(dataList: Option<seq<Obj<V>>> := None, numProc: int := 0, numResults: int := 1, chunkSize: int := 1,
                         cpuCount: CpuCount)
      returns (r: RunResult<V>)
      ensures r == RunMultiAsyncOutcome(Settings(), dataList, numProc, numResults, chunkSize, cpuCount)
    {
      if dataList.None? {
        return Failure();
      }
      var data := dataList.value;
      var procs, numLists := Plan(|data|, numProc, chunkSize, cpuCount);
      var subLists := RoundRobin(data, numLists);
      if workerFunc.None? || procs < 1 {
        return Failure();
      }
      var pFunc, opts, wd := workerFunc.value, optionsD, workingDir;
      var retTupList := MapSeq(sub => pFunc(sub, ProcName, opts, wd), subLists);
      assert retTupList == Dispatched(Settings(), data, numProc, chunkSize, cpuCount);
      if SomeRaised(retTupList) {
        return Failure();
      }
      var c := Collect(retTupList, numResults);
      if c.raised {
        return RunResult(false, [], c.retLists, c.diagList);
      }
      if |data| == |c.successList| {
        return RunResult(true, [], c.retLists, c.diagList);
      }
      r := RunResult(false, DiffList(data, c.successList), c.retLists, c.diagList);
    }
  }
}
