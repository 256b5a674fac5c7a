/** How `runMulti` and `runMultiAsync` settle the pool size and the number of
    sublists (rcsb/utils/multiproc/MultiProcPoolUtil.py, lines 86-96 and
    160-171). The methods of `MultiProcPool` reassign `numProc` and
    `chunkSize` step by step, as the source does; these functions give the
    values those steps reach. */
module PoolParameters {
  import opened Partitioning

  /** What `multiprocessing.cpu_count()` returns: at least one. */
  type CpuCount = n: int | n >= 1 witness 1

  function Min(a: int, b: int): int
  {
    if a <= b then a else b
  }

  /** The pool size: twice the CPU count when fewer than one worker is
      asked for, and never more workers than items. */
  function WorkerCount(numProc: int, cpuCount: CpuCount, lenData: nat): (n: nat)
    ensures lenData == 0 ==> n == 0
    ensures lenData > 0 ==> 1 <= n <= lenData
    ensures 1 <= numProc <= lenData ==> n == numProc
    ensures numProc >= lenData ==> n == lenData
    ensures numProc < 1 ==> n == Min(2 * cpuCount, lenData)
  {
    Min(if numProc < 1 then cpuCount * 2 else numProc, lenData)
  }

  /** The number of sublists: the pool size when the clamped chunk size is
      not positive, otherwise how many whole chunks fit in the data. */
  function ListCount(numProc: int, chunkSize: int, cpuCount: CpuCount, lenData: nat): (k: nat)
    ensures lenData == 0 ==> k == 0
    ensures lenData > 0 ==> 1 <= k <= lenData
    ensures chunkSize <= 0 ==> k == WorkerCount(numProc, cpuCount, lenData)
    ensures chunkSize >= lenData > 0 ==> k == 1
    ensures 1 <= chunkSize <= lenData ==> k * chunkSize <= lenData < (k + 1) * chunkSize
  {
    var c := Min(lenData, chunkSize);
    if c <= 0 then
      WorkerCount(numProc, cpuCount, lenData)
    else
      DivFacts(lenData, c);
      lenData / c
  }

  lemma DivFacts(n: nat, c: int)
    requires c >= 1
    ensures 0 <= n / c <= n
    ensures c <= n ==> n / c >= 1
    ensures (n / c) * c <= n < (n / c + 1) * c
  {
    var q, r := n / c, n % c;
    assert n == q * c + r && 0 <= r < c;
    assert (q + 1) * c == q * c + c;
    MulLe(1, c, q);
    if q == 0 {
      assert n == r;
    }
  }

  lemma MulMono(a: int, b: int, q: nat)
    ensures a <= b ==> a * q <= b * q
  {
    if a <= b {
      MulLe(a, b, q);
    }
  }

  lemma {:induction false} MulLe(a: int, b: int, q: nat)
    requires a <= b
    ensures a * q <= b * q
    decreases q
  {
    if q > 0 {
      MulLe(a, b, q - 1);
    }
  }

  /** The docstring's "sublists of size chunkSize", as far as the code
      achieves it: for `1 <= chunkSize <= len(dataList)` every sublist has
      between `chunkSize` and `2 * chunkSize - 1` items. */
  lemma SublistSizes<T>(data: seq<T>, numProc: int, chunkSize: int, cpuCount: CpuCount)
    requires 1 <= chunkSize <= |data|
    ensures forall i :: 0 <= i < ListCount(numProc, chunkSize, cpuCount, |data|) ==>
      chunkSize <= |RoundRobin(data, ListCount(numProc, chunkSize, cpuCount, |data|))[i]| <= 2 * chunkSize - 1
  {
    var q := ListCount(numProc, chunkSize, cpuCount, |data|);
    ChunkArith(|data|, chunkSize, q);
    forall i | 0 <= i < q
      ensures chunkSize <= |RoundRobin(data, q)[i]| <= 2 * chunkSize - 1
    {
      StrideLength(data, i, q);
    }
  }

  /** `n` items in `q` lists, where `q` chunks of `c` fit and `q + 1` do not:
      the shortest list has at least `c` items, the longest at most `2c - 1`. */
  lemma ChunkArith(n: nat, c: int, q: int)
    requires 1 <= c <= n && q >= 1
    requires q * c <= n < (q + 1) * c
    ensures n / q >= c
    ensures n / q + (if n % q > 0 then 1 else 0) <= 2 * c - 1
  {
    var a, b := n / q, n % q;
    assert n == a * q + b && 0 <= b < q;
    ChunkLower(n, c, q, a, b);
    ChunkUpper(n, c, q, a, b, if b > 0 then 1 else 0);
  }

  lemma ChunkLower(n: nat, c: int, q: int, a: int, b: int)
    requires 1 <= c && q >= 1 && n == a * q + b && 0 <= b < q
    requires q * c <= n
    ensures a >= c
  {
    MulMono(a, c - 1, q);
    assert (c - 1) * q + q == c * q;
  }

  lemma ChunkUpper(n: nat, c: int, q: int, a: int, b: int, e: int)
    requires 1 <= c && q >= 1 && n == a * q + b && 0 <= b < q
    requires n < (q + 1) * c
    requires e == (if b > 0 then 1 else 0)
    ensures a + e <= 2 * c - 1
  {
    MulMono(2 * c - e, a, q);
    MulMono(1, q, c - e);
    assert (2 * c - e) * q == c * q + (c - e) * q;
    assert (q + 1) * c == q * c + c;
  }
}
