/** The incremental reader of a result: batches of rows, found again through runs of equal batch sizes. */
module DataReader {
  import opened Wrappers
  import ByteOrder

  /** A table of `rowCount` rows, with a value for every column and row. */
  datatype Batch<V> = Batch(rowCount: nat, value: (int, int) -> V)

  /** A run of batches of the same size. */
  datatype Run = Run(batchCount: nat, batchSize: nat, rowCount: nat)

  /** What an iterator yields: a batch or nothing, and whether it is the end. */
  datatype IteratorResult<V> = IteratorResult(value: Option<Batch<V>>, done: bool)

  datatype LookupError = NoData | RowOutOfRange | BatchOutOfRange

  // ----- runs

  function Sizes<V>(batches: seq<Batch<V>>): (s: seq<nat>)
    ensures |s| == |batches|
  {
    seq(|batches|, i requires 0 <= i < |batches| => batches[i].rowCount)
  }

  function Sum(sizes: seq<nat>): nat {
    if sizes == [] then 0 else Sum(sizes[..|sizes| - 1]) + sizes[|sizes| - 1]
  }

  /** The batch sizes that a list of runs stands for. */
  function Expand(runs: seq<Run>): seq<nat> {
    if runs == [] then [] else Expand(runs[..|runs| - 1]) + Repeat(runs[|runs| - 1].batchSize, runs[|runs| - 1].batchCount)
  }

  function Repeat(x: nat, n: nat): (s: seq<nat>)
    ensures |s| == n
  {
    seq(n, _ => x)
  }

  predicate RunOk(run: Run) {
    run.batchCount >= 1 && run.rowCount == run.batchCount * run.batchSize
  }

  /** Runs in shape: none empty, row counts right, no two neighbours of the same size. */
  ghost predicate InShape(runs: seq<Run>) {
    && (forall k :: 0 <= k < |runs| ==> RunOk(runs[k]))
    && (forall k :: 0 < k < |runs| ==> runs[k - 1].batchSize != runs[k].batchSize)
  }

  /** The runs after one more batch of `size` rows. */
  function AddToRuns(runs: seq<Run>, size: nat): seq<Run> {
    if runs != [] && runs[|runs| - 1].batchSize == size then
      var last := runs[|runs| - 1];
      runs[..|runs| - 1] + [Run(last.batchCount + 1, size, last.rowCount + size)]
    else runs + [Run(1, size, size)]
  }

  lemma AddToRunsExpands(runs: seq<Run>, size: nat)
    requires InShape(runs)
    ensures InShape(AddToRuns(runs, size)) && Expand(AddToRuns(runs, size)) == Expand(runs) + [size]
  {
    var more := AddToRuns(runs, size);
    if runs != [] && runs[|runs| - 1].batchSize == size {
      var last := runs[|runs| - 1];
      assert more[..|more| - 1] == runs[..|runs| - 1];
      assert Repeat(size, last.batchCount + 1) == Repeat(size, last.batchCount) + [size];
      assert (last.batchCount + 1) * size == last.batchCount * size + size;
    } else {
      assert more[..|more| - 1] == runs;
      assert Repeat(size, 1) == [size];
    }
  }

  /** Run-length encodings in shape are unique: the runs are a function of the sizes. */
  lemma {:induction false} RunsAreUnique(a: seq<Run>, b: seq<Run>)
    requires InShape(a) && InShape(b) && Expand(a) == Expand(b)
    ensures a == b
    decreases |Expand(a)|
  {
    hide Expand, AddToRuns, RemoveLast;
    if a == [] || b == [] {
      ExpandEmpty(a);
      ExpandEmpty(b);
    } else {
      var a', b' := RemoveLast(a), RemoveLast(b);
      RemoveLastExpands(a);
      RemoveLastExpands(b);
      var e, n := Expand(a), |Expand(a')|;
      assert Expand(a') == e[..n] && Expand(b') == e[..n] && a[|a| - 1].batchSize == e[n] == b[|b| - 1].batchSize;
      RunsAreUnique(a', b');
    }
  }

  lemma ExpandEmpty(runs: seq<Run>)
    requires InShape(runs)
    ensures Expand(runs) == [] <==> runs == []
  {
  }

  /** A run without its last batch, which must not be its only one. */
  function Shorter(run: Run): (r: Run)
    requires RunOk(run) && run.batchCount > 1
    ensures RunOk(r) && r.batchSize == run.batchSize && run == Run(r.batchCount + 1, r.batchSize, r.rowCount + r.batchSize)
  {
    assert (run.batchCount - 1) * run.batchSize == run.rowCount - run.batchSize;
    Run(run.batchCount - 1, run.batchSize, (run.batchCount - 1) * run.batchSize)
  }

  function RemoveLast(runs: seq<Run>): seq<Run>
    requires runs != [] && RunOk(runs[|runs| - 1])
  {
    var last := runs[|runs| - 1];
    runs[..|runs| - 1] + (if last.batchCount == 1 then [] else [Shorter(last)])
  }

  lemma RemoveLastExpands(runs: seq<Run>)
    requires InShape(runs) && runs != []
    ensures InShape(RemoveLast(runs)) && Expand(runs) == Expand(RemoveLast(runs)) + [runs[|runs| - 1].batchSize]
    ensures runs == AddToRuns(RemoveLast(runs), runs[|runs| - 1].batchSize)
  {
    hide RunOk, Expand, AddToRuns, InShape;
    var last, first := runs[|runs| - 1], runs[..|runs| - 1];
    assert runs == first + [last];
    LastRunOk(runs);
    ShapeOfFirst(first, last, if last.batchCount == 1 then last else Shorter(last));
    if last.batchCount == 1 {
      SingleRun(last);
      AddDifferent(first, last.batchSize);
    } else {
      AddSame(first, Shorter(last));
    }
    assert RemoveLast(runs) == if last.batchCount == 1 then first else first + [Shorter(last)];
    AddToRunsExpands(RemoveLast(runs), last.batchSize);
  }

  lemma LastRunOk(runs: seq<Run>)
    requires InShape(runs) && runs != []
    ensures RunOk(runs[|runs| - 1]) && runs[|runs| - 1].batchCount >= 1
  {
  }

  lemma ShapeOfFirst(first: seq<Run>, last: Run, run: Run)
    requires InShape(first + [last]) && RunOk(run) && run.batchSize == last.batchSize
    ensures InShape(first) && InShape(first + [run]) && RunOk(last)
    ensures first != [] ==> first[|first| - 1].batchSize != last.batchSize
  {
    hide RunOk;
    var runs := first + [last];
    assert runs[|first|] == last;
    assert forall k :: 0 <= k < |first| ==> runs[k] == first[k] == (first + [run])[k];
    if first != [] { assert runs[|first| - 1].batchSize != runs[|first|].batchSize; }
  }

  lemma AddDifferent(first: seq<Run>, size: nat)
    requires first != [] ==> first[|first| - 1].batchSize != size
    ensures AddToRuns(first, size) == first + [Run(1, size, size)]
  {
  }

  lemma AddSame(first: seq<Run>, run: Run)
    ensures AddToRuns(first + [run], run.batchSize)
         == first + [Run(run.batchCount + 1, run.batchSize, run.rowCount + run.batchSize)]
  {
    assert (first + [run])[..|first|] == first;
  }

  lemma SingleRun(run: Run)
    requires RunOk(run) && run.batchCount == 1
    ensures run == Run(1, run.batchSize, run.batchSize)
  {
  }

  // ----- finding a row

  /** Where row `row` of the concatenated batches is: its batch, and its row in that batch. */
  function Locate(sizes: seq<nat>, row: nat): (r: (nat, nat))
    requires row < Sum(sizes)
    ensures r.0 < |sizes| && r.1 < sizes[r.0]
    ensures Sum(sizes[..r.0]) + r.1 == row
  {
    var n := |sizes| - 1;
    if row >= Sum(sizes[..n]) then (n, row - Sum(sizes[..n]))
    else
      var r := Locate(sizes[..n], row);
      assert sizes[..n][..r.0] == sizes[..r.0];
      r
  }

  lemma {:induction false} SumPrefix(sizes: seq<nat>, i: nat)
    requires i <= |sizes|
    ensures Sum(sizes[..i]) <= Sum(sizes)
    ensures i < |sizes| ==> Sum(sizes[..i + 1]) == Sum(sizes[..i]) + sizes[i]
    decreases |sizes|
  {
    if i < |sizes| {
      assert sizes[..i + 1][..i] == sizes[..i];
      var n := |sizes| - 1;
      SumPrefix(sizes[..n], if i <= n then i else n);
      assert i <= n ==> sizes[..n][..i] == sizes[..i];
    } else {
      assert sizes[..i] == sizes;
    }
  }

  /** A row is in one place only. */
  lemma LocateIs(sizes: seq<nat>, row: nat, k: nat, j: nat)
    requires k < |sizes| && j < sizes[k] && row == Sum(sizes[..k]) + j
    ensures row < Sum(sizes) && Locate(sizes, row) == (k, j)
  {
    SumPrefix(sizes, k);
    SumPrefix(sizes, k + 1);
    var r := Locate(sizes, row);
    if r.0 < k { PrefixOrder(sizes, r.0, k); }
    if k < r.0 { PrefixOrder(sizes, k, r.0); }
  }

  lemma PrefixOrder(sizes: seq<nat>, i: nat, j: nat)
    requires i < j <= |sizes|
    ensures Sum(sizes[..i]) + sizes[i] <= Sum(sizes[..j])
  {
    SumPrefix(sizes[..j], i);
    SumPrefix(sizes[..j], i + 1);
    assert sizes[..j][..i] == sizes[..i];
  }

  /** Rows already read stay where they are when more batches follow. */
  lemma {:induction false} LocateStable(sizes: seq<nat>, more: seq<nat>, row: nat)
    requires row < Sum(sizes)
    ensures row < Sum(sizes + more) && Locate(sizes + more, row) == Locate(sizes, row)
  {
    var r := Locate(sizes, row);
    assert (sizes + more)[..r.0] == sizes[..r.0];
    LocateIs(sizes + more, row, r.0, r.1);
  }

  lemma {:induction false} SumRepeat(x: nat, n: nat)
    ensures Sum(Repeat(x, n)) == n * x
  {
    if n > 0 {
      SumRepeat(x, n - 1);
      assert Repeat(x, n)[..n - 1] == Repeat(x, n - 1);
    }
  }

  lemma {:induction false} SumConcat(a: seq<nat>, b: seq<nat>)
    ensures Sum(a + b) == Sum(a) + Sum(b)
    decreases |b|
  {
    if b == [] {
      assert a + b == a;
    } else {
      var n := |b| - 1;
      SumConcat(a, b[..n]);
      assert (a + b)[..|a + b| - 1] == a + b[..n];
    }
  }

  /** The first `k` runs cover a prefix of the batches, of so many batches and rows. */
  lemma {:induction false} ExpandPrefix(runs: seq<Run>, k: nat)
    requires InShape(runs) && k < |runs|
    ensures Expand(runs[..k]) + Repeat(runs[k].batchSize, runs[k].batchCount) <= Expand(runs)
    ensures Sum(Expand(runs[..k + 1])) == Sum(Expand(runs[..k])) + runs[k].rowCount
    ensures |Expand(runs[..k + 1])| == |Expand(runs[..k])| + runs[k].batchCount
    decreases |runs|
  {
    var n := |runs| - 1;
    assert runs[..k + 1][..k] == runs[..k];
    SumRepeat(runs[k].batchSize, runs[k].batchCount);
    SumConcat(Expand(runs[..k]), Repeat(runs[k].batchSize, runs[k].batchCount));
    if k < n {
      ExpandPrefix(runs[..n], k);
      assert runs[..n][..k] == runs[..k];
    }
  }

  /** A row in run `k`, found by division. */
  lemma RowInRun(runs: seq<Run>, k: nat, row: nat)
    requires InShape(runs) && k < |runs| && row < runs[k].rowCount
    ensures runs[k].batchSize > 0
    ensures var batch := |Expand(runs[..k])| + row / runs[k].batchSize;
            && batch < |Expand(runs)| && Sum(Expand(runs[..k])) + row < Sum(Expand(runs))
            && Locate(Expand(runs), Sum(Expand(runs[..k])) + row) == (batch, row % runs[k].batchSize)
  {
    hide Expand, Repeat, Sum;
    var run := runs[k];
    ExpandPrefix(runs, k);
    var size, count := run.batchSize, run.batchCount;
    PositiveSize(row, size, count);
    var q, j := row / size, row % size;
    QuotientBelow(row, size, count);
    var before, sizes := Expand(runs[..k]), Expand(runs);
    RepeatParts(size, count, q);
    SumRepeat(size, q);
    SumConcat(before, Repeat(size, q));
    assert sizes[..|before| + count] == before + Repeat(size, count);
    assert sizes[..|before| + q] == before + Repeat(size, q);
    assert sizes[|before| + q] == (before + Repeat(size, count))[|before| + q] == Repeat(size, count)[q];
    LocateIs(sizes, Sum(before) + row, |before| + q, j);
  }

  lemma RepeatParts(x: nat, n: nat, q: nat)
    requires q < n
    ensures Repeat(x, n)[..q] == Repeat(x, q) && Repeat(x, n)[q] == x
  {
  }

  lemma PositiveSize(row: nat, size: nat, count: nat)
    requires row < count * size
    ensures size > 0
  {
  }

  lemma QuotientBelow(row: nat, size: nat, count: nat)
    requires size > 0 && row < count * size
    ensures 0 <= row / size < count && row == row / size * size + row % size
  {}

  // ----- reading

  /** An iterator over a finite list of results; after them, it says that it is done. */
  class BatchIterator<V> {
    const results: seq<IteratorResult<V>>
    var index: nat

    constructor (results: seq<IteratorResult<V>>)
      ensures this.results == results && index == 0
    {
      this.results := results;
      index := 0;
    }

    method Next() returns (r: IteratorResult<V>)
      requires index <= |results|
      modifies this
      ensures index <= |results|
      ensures if old(index) < |results| then r == results[old(index)] && index == old(index) + 1
              else r == IteratorResult(None, true) && index == old(index)
    {
      if index < |results| {
        r := results[index];
        index := index + 1;
      } else {
        r := IteratorResult(None, true);
      }
    }
  }

  /** The batches among the results. */
  function BatchesIn<V>(results: seq<IteratorResult<V>>): seq<Batch<V>> {
    if results == [] then []
    else
      var last := results[|results| - 1];
      BatchesIn(results[..|results| - 1]) + (if last.value.Some? then [last.value.value] else [])
  }

  lemma BatchesStep<V>(results: seq<IteratorResult<V>>, i: nat)
    ensures i < |results| ==>
              BatchesIn(results[..i + 1]) == BatchesIn(results[..i])
                                             + (if results[i].value.Some? then [results[i].value.value] else [])
  {
    if i < |results| { assert results[..i + 1][..i] == results[..i]; }
  }

  lemma SizesStep<V>(batches: seq<Batch<V>>, batch: Batch<V>)
    ensures Sizes(batches + [batch]) == Sizes(batches) + [batch.rowCount]
    ensures Sum(Sizes(batches + [batch])) == Sum(Sizes(batches)) + batch.rowCount
  {}

  function RowsIn<V>(r: IteratorResult<V>): nat {
    if r.value.Some? then r.value.value.rowCount else 0
  }

  /** Where reading stops: at the first result that is the last, or at which the target is met; and whether it is done. */
  function StopAt<V>(results: seq<IteratorResult<V>>, index: nat, done: bool, rows: nat, target: Option<int>): (nat, bool)
    requires index <= |results|
    decreases |results| - index
  {
    if done || (target.Some? && rows >= target.value) then (index, done)
    else if index == |results| then (index, true)
    else StopAt(results, index + 1, results[index].done, rows + RowsIn(results[index]), target)
  }

  lemma StopStep<V>(results: seq<IteratorResult<V>>, index: nat, rows: nat, target: Option<int>)
    requires index <= |results| && !(target.Some? && rows >= target.value)
    ensures StopAt(results, index, false, rows, target) ==
            if index == |results| then StopAt(results, index, true, rows, target)
            else StopAt(results, index + 1, results[index].done, rows + RowsIn(results[index]), target)
  {
  }

  lemma StopHere<V>(results: seq<IteratorResult<V>>, index: nat, done: bool, rows: nat, target: Option<int>)
    requires index <= |results| && (done || (target.Some? && rows >= target.value))
    ensures StopAt(results, index, done, rows, target) == (index, done)
  {
  }

  /** Without a target, results that are never the last are read to the end. */
  lemma {:induction false} ReadsAll<V>(results: seq<IteratorResult<V>>, index: nat, rows: nat)
    requires index <= |results| && forall r <- results :: !r.done
    ensures StopAt(results, index, false, rows, None) == (|results|, true)
    decreases |results| - index
  {
    if index < |results| { ReadsAll(results, index + 1, rows + RowsIn(results[index])); }
  }

  class DataReader<V> {
    const source: BatchIterator<V>
    var iteratorDone: bool
    var totalRowsRead: nat
    var batches: seq<Batch<V>>
    var batchSizeRuns: seq<Run>

    ghost predicate Valid()
      reads this, source
    {
      && source.index <= |source.results|
      && InShape(batchSizeRuns) && Expand(batchSizeRuns) == Sizes(batches)
      && totalRowsRead == Sum(Sizes(batches))
      && batches == BatchesIn(source.results[..source.index])
    }

    constructor (source: BatchIterator<V>)
      requires source.index == 0
      ensures Valid() && this.source == source && batches == [] && !iteratorDone
    {
      this.source := source;
      iteratorDone := false;
      totalRowsRead := 0;
      batches := [];
      batchSizeRuns := [];
    }

    /** What `value` is to return: the value in the batch, and at the row of it, where the row is. */
    ghost function ValueSpec(columnIndex: int, rowIndex: int): Result<V, LookupError>
      reads this
      requires totalRowsRead == Sum(Sizes(batches))
    {
      if totalRowsRead == 0 then Failure(NoData)
      else if rowIndex < 0 then Failure(BatchOutOfRange)
      else if rowIndex >= totalRowsRead then Failure(RowOutOfRange)
      else
        var (batch, row) := Locate(Sizes(batches), rowIndex);
        Success(batches[batch].value(columnIndex, row))
    }

    method Value(columnIndex: int, rowIndex: int) returns (r: Result<V, LookupError>)
      requires Valid()
      ensures r == ValueSpec(columnIndex, rowIndex)
    {
      if totalRowsRead == 0 { return Failure(NoData); }
      var batchIndex, currentRowIndex, k := 0, rowIndex, 0;
      assert batchSizeRuns[..|batchSizeRuns|] == batchSizeRuns && Expand([]) == [] && Sum([]) == 0;
      while k < |batchSizeRuns|
        invariant 0 <= k <= |batchSizeRuns|
        invariant k == 0 ==> batchIndex == 0 && currentRowIndex == rowIndex
        invariant k > 0 ==> currentRowIndex >= 0
        invariant batchIndex == |Expand(batchSizeRuns[..k])|
        invariant rowIndex == Sum(Expand(batchSizeRuns[..k])) + currentRowIndex
      {
        var run := batchSizeRuns[k];
        if currentRowIndex < run.rowCount {
          if currentRowIndex >= 0 {
            RowInRun(batchSizeRuns, k, currentRowIndex);
          } else {
            // a negative row divided by zero is minus infinity, and by a size, a negative number
            if run.batchSize == 0 { return Failure(BatchOutOfRange); }
            NegativeQuotient(currentRowIndex, run.batchSize);
          }
          batchIndex := batchIndex + currentRowIndex / run.batchSize;
          if batchIndex < 0 || batchIndex >= |batches| { return Failure(BatchOutOfRange); }
          var rowIndexInBatch := currentRowIndex % run.batchSize;
          return Success(batches[batchIndex].value(columnIndex, rowIndexInBatch));
        }
        ExpandPrefix(batchSizeRuns, k);
        batchIndex := batchIndex + run.batchCount;
        currentRowIndex := currentRowIndex - run.rowCount;
        k := k + 1;
      }
      return Failure(RowOutOfRange);
    }

    /** Reads batches until the iterator is done or, if there is a target, that many rows have been read. */
    method Read(targetRowCount: Option<int>)
      requires Valid()
      modifies this, source
      ensures Valid() && old(batches) <= batches
      ensures (source.index, iteratorDone)
           == StopAt(source.results, old(source.index), old(iteratorDone), old(totalRowsRead), targetRowCount)
    {
      hide InShape, Expand, Sum, StopAt, BatchesIn, Sizes, AddToRuns;
      ghost var stop := StopAt(source.results, source.index, iteratorDone, totalRowsRead, targetRowCount);
      while !(iteratorDone || (targetRowCount.Some? && totalRowsRead >= targetRowCount.value))
        invariant Valid() && old(batches) <= batches
        invariant StopAt(source.results, source.index, iteratorDone, totalRowsRead, targetRowCount) == stop
        decreases !iteratorDone, |source.results| - source.index
      {
        StopStep(source.results, source.index, totalRowsRead, targetRowCount);
        ghost var index := source.index;
        var next := source.Next();
        BatchesStep(source.results, index);
        if next.value.Some? {
          UpdateBatchSizeRuns(next.value.value);
          SizesStep(batches, next.value.value);
          batches := batches + [next.value.value];
          totalRowsRead := totalRowsRead + next.value.value.rowCount;
        }
        if next.done {
          iteratorDone := true;
        }
      }
      StopHere(source.results, source.index, iteratorDone, totalRowsRead, targetRowCount);
    }

    method UpdateBatchSizeRuns(batch: Batch<V>)
      requires InShape(batchSizeRuns)
      modifies this`batchSizeRuns
      ensures batchSizeRuns == AddToRuns(old(batchSizeRuns), batch.rowCount)
      ensures InShape(batchSizeRuns) && Expand(batchSizeRuns) == Expand(old(batchSizeRuns)) + [batch.rowCount]
    {
      AddToRunsExpands(batchSizeRuns, batch.rowCount);
      if |batchSizeRuns| > 0 {
        var lastRun := batchSizeRuns[|batchSizeRuns| - 1];
        if lastRun.batchSize == batch.rowCount {
          batchSizeRuns := batchSizeRuns[|batchSizeRuns| - 1 :=
                           Run(lastRun.batchCount + 1, lastRun.batchSize, lastRun.rowCount + lastRun.batchSize)];
          return;
        }
      }
      batchSizeRuns := batchSizeRuns + [Run(1, batch.rowCount, batch.rowCount)];
    }
  }

  lemma NegativeQuotient(row: int, size: nat)
    requires row < 0 < size
    ensures row / size < 0
  {
  }

  /** More reading never changes a value that could be read before. */
  lemma ValuesNeverChange<V>(before: seq<Batch<V>>, after: seq<Batch<V>>, row: nat)
    requires before <= after && row < Sum(Sizes(before))
    ensures row < Sum(Sizes(after))
    ensures Locate(Sizes(after), row) == Locate(Sizes(before), row)
    ensures after[Locate(Sizes(after), row).0] == before[Locate(Sizes(before), row).0]
  {
    var more := after[|before|..];
    assert after == before + more;
    assert Sizes(after) == Sizes(before) + Sizes(more);
    LocateStable(Sizes(before), Sizes(more), row);
  }
}
