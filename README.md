# MultiProcPoolUtil, modelled in Dafny

`MultiProcPoolUtil` (rcsb/utils/multiproc/MultiProcPoolUtil.py) runs a worker
method over a list of inputs with a pool of processes. The caller binds a
worker with `set`, and can install an options dictionary (`setOptions`) and
a working directory (`setWorkingDir`). It then calls `runMulti` or
`runMultiAsync` with the data list, a process count, the number of result
lists the worker returns (`numResults`) and a chunk size. A run goes
through these steps:

- it settles the pool size and the number of sublists;
- it splits the data round-robin (`dataList[i::numLists]`);
- it calls the worker once per sublist, and the worker returns the tuple
  `(successList, result_1, ..., result_numResults, diagList)`;
- it concatenates the tuples component by component;
- it reports success when the success list is as long as the data list;
- otherwise it reports the items missing from the success list.

`runMulti` finds the missing items with a value-based set difference.
`runMultiAsync` uses `__diffList`, which falls back to comparing object
identities when the items are unhashable. Every exception inside a run is
caught, and the run then returns `False` with whatever it had collected.

The model has these modules:

- `Wrappers` holds `Option`.
- `Seqs` holds concatenation, mapping and filtering of lists, with their
  facts.
- `PyObjects` models Python objects as `Obj(ident, val, hashable)`: an
  identity (`id()`), a value used for `==` and hashing, and whether `set()`
  accepts the object.
- `FailSets` covers `list(set(l1) - set(l2))`, the identity fallback and
  `__diffList`.
- `Partitioning` covers the round-robin split.
- `PoolParameters` covers the clamping of `numProc` and `chunkSize` and the
  sublist count.
- `Aggregation` covers the collection loop, both as the function `Gather`
  and as the method `Collect`, which has the loop's shape.
- `PoolEngine` gives the result of each run method as a function of the
  settings and the arguments, with the lemmas about those results.
- `MultiProcPool` holds the class `MultiProcPoolUtil`: its four fields, its
  setters, and the two run methods written step by step. Each run method
  is proved to return what `PoolEngine` specifies.

A worker is a function of `(subList, procName, optionsD, workingDir)` that
either returns a tuple or raises (`WorkerResult`: `Returned(parts)` or
`Raised`). `runMulti` takes results from `imap_unordered` in completion
order. The model represents that order by the method's out-parameter
`delivered`, which can be any reordering of the results. Every lemma about
`runMulti` holds for all such orders.

The docstrings of `runMulti` and `runMultiAsync` (lines 65-76 and 139-150)
describe two things differently from the code, and the model follows the
code:

- The docstrings say that a non-positive chunk size means
  `chunkSize = numProc`. The code sets the number of sublists to `numProc`.
- The docstrings call `diagList` a unique list of diagnostics. The code
  concatenates the diagnostics without removing duplicates.

The code also behaves in these ways, which the model keeps:

- An empty data list is not a successful run. `len(dataList)` is 0, so
  `numProc` becomes 0, and `Pool(processes=0)` raises `ValueError`. The
  run returns `(False, [], [], [])`.
- When a worker raises, or returns too few components, inside the
  `runMulti` loop, the run returns the result lists and diagnostics
  collected so far.
- Success means equal lengths (`len(dataList) == len(successList)`), not
  that every input item appears in the success list. `VerdictCountsLength`
  shows a success list that misses an item and still gives a complete run.
- The results of the worker calls come back from other processes as new
  objects. The value-based difference sees only their values, as
  `ValueDiffByVals` shows, so `MultiFailSet` and `AsyncFailSet` hold for
  workers that hand back copies.
- The constructor, `RunMulti` and `RunMultiAsync` take the source's
  default arguments: `verbose=True`, `dataList=None`, `numProc=0` and
  `numResults=1`. The default `chunkSize` is 10 for `runMulti` and 1 for
  `runMultiAsync`. `Set` takes no defaults (see "Left out").

## Model

| member | source | states |
|---|---|---|
| PoolParameters.WorkerCount | rcsb/utils/multiproc/MultiProcPoolUtil.py:86-90 | pool size: twice the CPU count when `numProc < 1`, never more than the number of items, 0 for no data, otherwise between 1 and the number of items |
| PoolParameters.ListCount | rcsb/utils/multiproc/MultiProcPoolUtil.py:91-96 | number of sublists: the pool size when the clamped chunk size is not positive, 1 when the chunk size reaches the data length, otherwise the number of whole chunks (`k*chunkSize <= len < (k+1)*chunkSize`); 0 for no data, otherwise between 1 and the length |
| PoolParameters.SublistSizes | rcsb/utils/multiproc/MultiProcPoolUtil.py:91-98 | with `1 <= chunkSize <= len`, every sublist has at least `chunkSize` items and at most `2*chunkSize - 1` |
| MultiProcPool.MultiProcPoolUtil.Plan | rcsb/utils/multiproc/MultiProcPoolUtil.py:86-96 | the step-by-step reassignment of `numProc` and `chunkSize` reaches `WorkerCount` and `ListCount` (the same steps appear at lines 160-171) |
| Partitioning.RoundRobin | rcsb/utils/multiproc/MultiProcPoolUtil.py:98 | `dataList[i::numLists]` for each `i`: exactly `numLists` sublists |
| Partitioning.RoundRobinIndex | rcsb/utils/multiproc/MultiProcPoolUtil.py:98 | item `k` is element `k / n` of sublist `k % n` |
| Partitioning.RoundRobinItem | rcsb/utils/multiproc/MultiProcPoolUtil.py:98 | element `j` of sublist `i` is item `i + j*n` of the input |
| Partitioning.RoundRobinCoverage | rcsb/utils/multiproc/MultiProcPoolUtil.py:98 | the sublists together hold every input item exactly as often as the input does (multiset equality) |
| Partitioning.RoundRobinBalanced | rcsb/utils/multiproc/MultiProcPoolUtil.py:98 | with `1 <= n <= len`, no sublist is empty and the lengths differ by at most one |
| Partitioning.RoundRobinPlacement | rcsb/utils/multiproc/MultiProcPoolUtil.py:98 | every element of every sublist sits at the strided input position |
| PoolEngine.SubListsPartition | rcsb/utils/multiproc/MultiProcPoolUtil.py:89-98 | for non-empty data: between 1 and `len` sublists, none empty, balanced, strided, and together a permutation of the input |
| PoolEngine.Dispatchable | rcsb/utils/multiproc/MultiProcPoolUtil.py:89-107 | the run reaches the pool exactly when the data is not `None`, a worker is bound and the data is non-empty |
| PoolEngine.Dispatched | rcsb/utils/multiproc/MultiProcPoolUtil.py:104-109 | one worker call per sublist, in submission order, each being the bound worker applied to the sublist, `"worker"`, the options and the working directory |
| Aggregation.Step | rcsb/utils/multiproc/MultiProcPoolUtil.py:116-120 | one pass of the loop keeps `numResults` result lists and raises exactly when the tuple does not fit (the worker raised, or the tuple has fewer than `numResults + 1` components) |
| Aggregation.Gather | rcsb/utils/multiproc/MultiProcPoolUtil.py:115-120 | the loop over `n` channels keeps exactly `n` result lists (`Channels` makes a negative `numResults` give none, as `range` does) |
| Aggregation.Collect | rcsb/utils/multiproc/MultiProcPoolUtil.py:115-120 | the loop, with nested `extend` calls and early exit on an exception, computes `Gather` |
| Aggregation.GatherFits | rcsb/utils/multiproc/MultiProcPoolUtil.py:115-120 | when every tuple fits, nothing raises; the success list, each result list and the diagnostics are the concatenations of the matching components, in delivery order |
| Aggregation.GatherRaised | rcsb/utils/multiproc/MultiProcPoolUtil.py:116-120 | the loop ends on an exception exactly when some tuple does not fit |
| Aggregation.GatherStops | rcsb/utils/multiproc/MultiProcPoolUtil.py:116-120 | at the first tuple that does not fit, the lists hold the earlier tuples' components (result lists may have a partial extension) and no diagnostics from the failing tuple |
| Aggregation.GatherReorder | rcsb/utils/multiproc/MultiProcPoolUtil.py:109-120 | reordering the tuples changes neither whether the loop raises nor, when it does not, the contents of any list up to order |
| Aggregation.GatherParallel | rcsb/utils/multiproc/MultiProcPoolUtil.py:117-119 | tuples whose result lists match their success lists in length give result lists as long as the success list |
| FailSets.ValueDiff | rcsb/utils/multiproc/MultiProcPoolUtil.py:132 | `list(set(l1) - set(l2))`: items of `l1`, exactly one per value of `l1` absent from `l2`, each the first item of `l1` with that value |
| FailSets.IdDiff | rcsb/utils/multiproc/MultiProcPoolUtil.py:219-222 | the identity fallback: items of `l1`, exactly one per identity of `l1` absent from `l2`, each the last item of `l1` with that identity (`idD1` keeps the last index) |
| FailSets.DiffList | rcsb/utils/multiproc/MultiProcPoolUtil.py:213-228 | `__diffList`: the value difference when both lists are hashable, otherwise the identity difference |
| FailSets.ValueDiffUpToOrder | rcsb/utils/multiproc/MultiProcPoolUtil.py:216 | any list meeting the set-difference description, whatever its order, is a reordering of `ValueDiff` |
| FailSets.IdDiffUpToOrder | rcsb/utils/multiproc/MultiProcPoolUtil.py:219-222 | any list meeting the identity-difference description is a reordering of `IdDiff` |
| FailSets.ValueDiffOfFilter | rcsb/utils/multiproc/MultiProcPoolUtil.py:132 | for distinct input values, and a success list that is a reordering of the accepted items, the difference is exactly the rejected items |
| FailSets.ValueDiffByVals | rcsb/utils/multiproc/MultiProcPoolUtil.py:132 | the set difference depends only on the values of the success list: value-equal copies in place of the original objects give the same fail list |
| FailSets.IdDiffOfCopies | rcsb/utils/multiproc/MultiProcPoolUtil.py:219-222 | when no success item shares an identity with an input item, the identity difference is the whole input |
| FailSets.FilteredVerdict | rcsb/utils/multiproc/MultiProcPoolUtil.py:126-132 | for a hashable success list with the values of the accepted items, up to order: the lengths match exactly when every item is accepted; otherwise the fail list is the rejected items and its length plus the accepted count is the input length |
| PoolEngine.MultiFailList | rcsb/utils/multiproc/MultiProcPoolUtil.py:132-135 | `runMulti`'s fail list: the value difference when every item is hashable, otherwise empty (the caught `TypeError`) |
| PoolEngine.RunMultiOutcome | rcsb/utils/multiproc/MultiProcPoolUtil.py:64-136 | `None` data, an unbound worker or empty data fail with empty lists; `ok` holds exactly when the pool is reached, the loop does not raise and the success count equals the input length; `ok` implies an empty fail list; a reached pool gives `numResults` result lists |
| PoolEngine.RunMultiAsyncOutcome | rcsb/utils/multiproc/MultiProcPoolUtil.py:138-211 | the same early failures; any worker exception fails the run with empty lists (`get()` re-raises); `ok` implies an empty fail list and `numResults` result lists |
| PoolEngine.VerdictCountsLength | rcsb/utils/multiproc/MultiProcPoolUtil.py:126-128 | a success list that misses input item `b` but has the input's length gives `ok` |
| PoolEngine.MultiComplete | rcsb/utils/multiproc/MultiProcPoolUtil.py:126-128 | if every call reports all its items with parallel result lists, `runMulti` succeeds in every delivery order, with an empty fail list and `numResults` result lists, each one entry per input item |
| PoolEngine.MultiFailSet | rcsb/utils/tests-multiproc/testMultiProcPoolUtil.py:99-102 | for a worker that accepts exactly the items `keep` accepts, as the test's reverser does, over distinct hashable values, in every delivery order: `ok` exactly when every item is accepted; the fail list is the rejected items; its length is the input length minus the accepted count |
| PoolEngine.MultiFilteredLists | rcsb/utils/tests-multiproc/testMultiProcPoolUtil.py:99-101 | for a filtering worker that also keeps its result lists parallel to its success list, as the reverser does, in every delivery order: `numResults` result lists, each with one entry per accepted item |
| PoolEngine.MultiOrderIndependent | rcsb/utils/multiproc/MultiProcPoolUtil.py:109-136 | two delivery orders give the same verdict, the same fail list up to order and equally many result lists; when every tuple fits, the same result lists and diagnostics up to order |
| PoolEngine.AsyncAgreesWithMulti | rcsb/utils/multiproc/MultiProcPoolUtil.py:183-202 | without worker exceptions, `runMultiAsync` gives `runMulti`'s verdict, result lists and diagnostics for the submission order, and the whole result when all items are hashable |
| PoolEngine.AsyncFailSet | rcsb/utils/multiproc/MultiProcPoolUtil.py:200-211 | the result `MultiFailSet` gives, for `runMultiAsync`, again for workers that may return value-equal copies |
| PoolEngine.AsyncFilteredLists | rcsb/utils/multiproc/MultiProcPoolUtil.py:189-194 | the result `MultiFilteredLists` gives, for `runMultiAsync`: `numResults` result lists, each with one entry per accepted item |
| PoolEngine.AsyncComplete | rcsb/utils/multiproc/MultiProcPoolUtil.py:200-202 | the result `MultiComplete` gives, for `runMultiAsync` |
| PoolEngine.AsyncCopiesFailAll | rcsb/utils/multiproc/MultiProcPoolUtil.py:207-222 | with unhashable data and worker results that are copies with new identities, an incomplete `runMultiAsync` lists every input item as failed |
| MultiProcPool.MultiProcPoolUtil.constructor | rcsb/utils/multiproc/MultiProcPoolUtil.py:33-37 | stores `verbose` (default true); no worker bound, empty options, working directory `"."` |
| MultiProcPool.MultiProcPoolUtil.SetOptions | rcsb/utils/multiproc/MultiProcPoolUtil.py:41-43 | replaces the options dictionary and nothing else |
| MultiProcPool.MultiProcPoolUtil.SetWorkingDir | rcsb/utils/multiproc/MultiProcPoolUtil.py:45-47 | replaces the working directory and nothing else |
| MultiProcPool.MultiProcPoolUtil.Set | rcsb/utils/multiproc/MultiProcPoolUtil.py:49-61 | answers true exactly when the object has the attribute, and then binds it; otherwise keeps the old binding; other fields unchanged |
| MultiProcPool.MultiProcPoolUtil.RunMulti | rcsb/utils/multiproc/MultiProcPoolUtil.py:64-136 | the method returns `RunMultiOutcome` for the order `delivered` it reports, and that order is a reordering of the dispatched calls' results (empty if the pool is not reached) |
| MultiProcPool.MultiProcPoolUtil.RunMultiAsync | rcsb/utils/multiproc/MultiProcPoolUtil.py:138-211 | the method returns `RunMultiAsyncOutcome` |

## Left out

- Process management is not modelled: `multiprocessing.Pool`, `contextlib.closing` and the transfer of arguments and results between processes. Each worker call is a pure function of its arguments.
- `poolChunkSize` (5) is not a parameter. With `imap_unordered(..., chunksize=5)`, one raising call makes its whole batch of up to five sublists a single exception, so the tuples of its successful batch-mates are never aggregated. The model's delivery orders include this outcome: the batch-mates can come after the `Raised` result, and the loop drops everything after the first `Raised`.
- Logging is not modelled. Every `logger` call only writes a message.
- `multiprocessing.cpu_count()` becomes a parameter (`cpuCount`, at least 1), since it reads the machine.
- `int(lenData / int(chunkSize))` divides floats. The model uses integer floor division, which agrees for every list shorter than 2^53 items. Non-integer `numProc` or `chunkSize` arguments are not modelled.
- Set: does not model the source's defaults `workerObj=None, workerMethod=None`, nor the `TypeError` that `getattr` raises for a non-string `workerMethod` (as with the default `None`), which the method does not catch. The worker object is given by its attribute table, so `set(workerMethod="m")` on the default `None` object is the call with a table that lacks `"m"` (answering false), except for the attributes `None` itself has.
- SetOptions: stores the options as a value. The source keeps a reference to the caller's dictionary, so changes the caller makes to it after the call reach later worker calls; the model does not capture that aliasing.
- The fields `__loggingMP` and `__sentinel` are never read, and `__verbose` does not affect behaviour. The model keeps `verbose` only.
- Every tuple component a worker returns is modelled as a list of objects. Workers whose result lists hold other types are represented by encoding them as objects.
- A worker result that cannot be indexed, such as `None` or an int, is modelled as an empty tuple. `retTup[0]` raises in both cases. A list or another indexable sequence is indexed like a tuple (lines 117-120) and is modelled as one.
- Python's set iteration order is not modelled. `ValueDiff` and `IdDiff` list the difference in input order, and `ValueDiffUpToOrder` and `IdDiffUpToOrder` show that any order a set could produce is a reordering of that list.
- The inner `except Exception` of `__diffList` (lines 223-224) and its final `return []` are not reachable in the model: building dictionaries of identities cannot fail for lists.
- Python's `__eq__` and `__hash__` are modelled by one value per object. Objects whose equality is not an equivalence, or whose hash disagrees with their equality, are not modelled.
- MultiFailSet, AsyncFailSet: require distinct input values, because `set()` merges duplicates, and a fail list with one entry per rejected item only holds then (the test's random strings are distinct with overwhelming probability).
- There are no timeouts. A worker that never returns would block the run forever, and the model's worker always returns or raises.
- The other modules of the repository are not part of this model: `MultiProcUtil`, `MultiProcLogging` and their tests.
