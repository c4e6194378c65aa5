/** Batch orchestration (mineru_vlm.py, `parse_doc`): the path list is cut into
    consecutive batches of `batch_size`, each batch's readable files are loaded and
    handed to `do_parse`, and the driver pauses between batches.  Every exception
    of the body, including the division by a zero batch size, is caught and
    logged, so the call itself never fails. */
module Batching {
  import opened Seqs
  import opened PyOps
  import opened Conversion

  /** `time.sleep(2)` between batches. */
  const BatchPauseSeconds: nat := 2

  /** A `do_parse` call for batch `batch` with the stems and the bytes of its
      loaded files, or a pause.  What a call writes is `Conversion.DoParse`'s
      business. */
  datatype BatchEvent =
    | Dispatched(batch: nat, names: seq<string>, pdfs: seq<Bytes>)
    | Slept(seconds: nat)

  function Min(a: int, b: int): int
  {
    if a <= b then a else b
  }

  /** `(len(path_list) + batch_size - 1) // batch_size`. */
  function NumBatches(n: nat, batchSize: int): int
    requires batchSize != 0
  {
    FloorDiv(n + batchSize - 1, batchSize)
  }

  lemma MulMonotone(a: int, b: int, c: int)
    requires a <= b && c >= 0
    ensures a * c <= b * c
  {
    assert b * c - a * c == (b - a) * c;
  }

  /** For a positive batch size the count is the ceiling of `n / batchSize`: the
      batches before the last cover fewer than `n` paths and all of them cover `n`. */
  lemma {:induction false} NumBatchesIsCeiling(n: nat, batchSize: int)
    requires batchSize >= 1
    ensures NumBatches(n, batchSize) >= 0
    ensures n == 0 ==> NumBatches(n, batchSize) == 0
    ensures n > 0 ==> (NumBatches(n, batchSize) - 1) * batchSize < n <= NumBatches(n, batchSize) * batchSize
  {
    var q := NumBatches(n, batchSize);
    var m := q * batchSize;
    assert m <= n + batchSize - 1 < m + batchSize;
    assert (q - 1) * batchSize == m - batchSize;
    if q < 0 {
      MulMonotone(q, -1, batchSize);
    }
    if q >= 1 {
      MulMonotone(1, q, batchSize);
    }
  }

  /** `path_list[start_idx:end_idx]` for batch `i`. */
  function BatchPaths(paths: seq<Path>, batchSize: int, i: int): seq<Path>
  {
    var start := i * batchSize;
    Slice(paths, start, Min(start + batchSize, |paths|))
  }

  /** A batch is the slice starting at `start`, at most `batchSize` long. */
  lemma SliceWindow(paths: seq<Path>, start: int, batchSize: int)
    requires batchSize >= 1 && start >= 0
    ensures start <= |paths| ==>
      Slice(paths, start, Min(start + batchSize, |paths|)) == paths[start .. Min(start + batchSize, |paths|)]
    ensures |Slice(paths, start, Min(start + batchSize, |paths|))| <= batchSize
    ensures start < |paths| ==> Slice(paths, start, Min(start + batchSize, |paths|)) != []
  {
  }

  /** With a positive batch size, batch `i` is the `i`-th run of `batchSize`
      consecutive paths, cut short at the end of the list. */
  lemma BatchPathsWindow(paths: seq<Path>, batchSize: int, i: nat)
    requires batchSize >= 1
    ensures i * batchSize <= |paths| ==>
      BatchPaths(paths, batchSize, i) == paths[i * batchSize .. Min(i * batchSize + batchSize, |paths|)]
    ensures |BatchPaths(paths, batchSize, i)| <= batchSize
    ensures i < NumBatches(|paths|, batchSize) ==> BatchPaths(paths, batchSize, i) != []
    ensures i + 1 < NumBatches(|paths|, batchSize) ==> |BatchPaths(paths, batchSize, i)| == batchSize
  {
    var start := i * batchSize;
    MulMonotone(0, i, batchSize);
    SliceWindow(paths, start, batchSize);
    if i < NumBatches(|paths|, batchSize) {
      NumBatchesIsCeiling(|paths|, batchSize);
      MulMonotone(i, NumBatches(|paths|, batchSize) - 1, batchSize);
      if i + 1 < NumBatches(|paths|, batchSize) {
        MulMonotone(i + 1, NumBatches(|paths|, batchSize) - 1, batchSize);
        assert (i + 1) * batchSize == start + batchSize;
      }
    }
  }

  /** The first `k` batches, concatenated, are the first `min(k * batchSize, n)` paths. */
  lemma BatchesPrefix(paths: seq<Path>, batchSize: int, k: nat)
    requires batchSize >= 1
    ensures Concat(FirstBatches(paths, batchSize, k)) == paths[..Min(k * batchSize, |paths|)]
  {
    assert paths[..Min(0 * batchSize, |paths|)] == [];
    assert FirstBatches(paths, batchSize, 0) == [];
    var j := 0;
    while j < k
      invariant j <= k
      invariant Concat(FirstBatches(paths, batchSize, j)) == paths[..Min(j * batchSize, |paths|)]
    {
      BatchesPrefixStep(paths, batchSize, j + 1);
      j := j + 1;
    }
  }

  /** The first `k` batches, as a list. */
  function FirstBatches(paths: seq<Path>, batchSize: int, k: nat): (bs: seq<seq<Path>>)
    ensures |bs| == k
  {
    seq(k, i requires 0 <= i < k => BatchPaths(paths, batchSize, i))
  }

  lemma BatchesPrefixStep(paths: seq<Path>, batchSize: int, k: nat)
    requires batchSize >= 1 && k >= 1
    requires Concat(FirstBatches(paths, batchSize, k - 1)) == paths[..Min((k - 1) * batchSize, |paths|)]
    ensures Concat(FirstBatches(paths, batchSize, k)) == paths[..Min(k * batchSize, |paths|)]
  {
    var bs' := FirstBatches(paths, batchSize, k - 1);
    var batch := BatchPaths(paths, batchSize, k - 1);
    assert FirstBatches(paths, batchSize, k) == bs' + [batch];
    ConcatSnoc(bs', batch);
    PrefixStepAt(paths, batchSize, k);
  }

  /** Batch `k - 1` extends the prefix the first `k - 1` batches cover. */
  lemma PrefixStepAt(paths: seq<Path>, batchSize: int, k: nat)
    requires batchSize >= 1 && k >= 1
    ensures paths[..Min(k * batchSize, |paths|)]
         == paths[..Min((k - 1) * batchSize, |paths|)] + BatchPaths(paths, batchSize, k - 1)
  {
    var start := (k - 1) * batchSize;
    assert k * batchSize == start + batchSize;
    MulMonotone(0, k - 1, batchSize);
    BatchPrefixStep(paths, start, batchSize, BatchPaths(paths, batchSize, k - 1));
  }

  lemma BatchPrefixStep(paths: seq<Path>, start: int, batchSize: int, batch: seq<Path>)
    requires batchSize >= 1 && start >= 0
    requires batch == Slice(paths, start, Min(start + batchSize, |paths|))
    ensures paths[..Min(start + batchSize, |paths|)] == paths[..Min(start, |paths|)] + batch
  {
    SliceWindow(paths, start, batchSize);
    if start <= |paths| {
      var next := Min(start + batchSize, |paths|);
      assert paths[..next] == paths[..start] + paths[start..next];
    }
  }

  /** With a positive batch size the batches, in order, are exactly the path list:
      every path lands in exactly one batch and the order is kept. */
  lemma BatchesCoverPaths(paths: seq<Path>, batchSize: int)
    requires batchSize >= 1
    ensures var k := NumBatches(|paths|, batchSize);
      k >= 0 && Concat(FirstBatches(paths, batchSize, k)) == paths
  {
    NumBatchesIsCeiling(|paths|, batchSize);
    var k := NumBatches(|paths|, batchSize);
    BatchesPrefix(paths, batchSize, k);
    assert Min(k * batchSize, |paths|) == |paths|;
  }

  /** With a negative batch size every batch `range` produces is empty: either the
      count is not positive, or the slice bounds are negative and out of order. */
  lemma {:induction false} NegativeBatchSizeBatchesEmpty(paths: seq<Path>, batchSize: int, i: nat)
    requires batchSize < 0 && i < NumBatches(|paths|, batchSize)
    ensures BatchPaths(paths, batchSize, i) == []
  {
    var n := |paths|;
    var q := NumBatches(n, batchSize);
    assert n + batchSize - 1 <= q * batchSize;
    MulMonotone(1, q, -batchSize);
    assert q * (-batchSize) == -(q * batchSize);
    assert n <= 1;
    MulMonotone(0, i, -batchSize);
    assert i * (-batchSize) == -(i * batchSize);
    var start := i * batchSize;
    if i >= 1 {
      MulMonotone(1, i, -batchSize);
    }
    NegativeWindowEmpty(paths, start, batchSize);
  }

  lemma NegativeWindowEmpty(paths: seq<Path>, start: int, batchSize: int)
    requires batchSize < 0 && start <= 0 && |paths| <= 1
    requires start == 0 || start <= batchSize
    ensures Slice(paths, start, Min(start + batchSize, |paths|)) == []
  {
  }

  /** The paths `read_fn` can load, in order. */
  function Readable(batch: seq<Path>, read: Path -> Option<Bytes>): (r: seq<Path>)
    ensures forall p :: p in r ==> read(p).Some?
  {
    if batch == [] then []
    else
      var last := batch[|batch| - 1];
      Readable(batch[..|batch| - 1], read) + (if read(last).Some? then [last] else [])
  }

  lemma {:induction false} ReadableAppend(a: seq<Path>, b: seq<Path>, read: Path -> Option<Bytes>)
    ensures Readable(a + b, read) == Readable(a, read) + Readable(b, read)
    decreases |b|
  {
    if b != [] {
      var b' := b[..|b| - 1];
      assert (a + b)[..|a + b| - 1] == a + b';
      ReadableAppend(a, b', read);
    } else {
      assert a + b == a;
    }
  }

  /** The loaded files are the readable paths, in order, and only those. */
  lemma {:induction false} ReadableMembers(batch: seq<Path>, read: Path -> Option<Bytes>, p: Path)
    ensures p in Readable(batch, read) <==> p in batch && read(p).Some?
  {
    if batch != [] {
      ReadableMembers(batch[..|batch| - 1], read, p);
      assert batch == batch[..|batch| - 1] + [batch[|batch| - 1]];
    }
  }

  function StemsOf(ps: seq<Path>): (r: seq<string>)
    ensures |r| == |ps|
  {
    seq(|ps|, i requires 0 <= i < |ps| => Stem(ps[i].name))
  }

  function BytesOf(ps: seq<Path>, read: Path -> Option<Bytes>): (r: seq<Bytes>)
    requires forall p :: p in ps ==> read(p).Some?
    ensures |r| == |ps|
  {
    seq(|ps|, i requires 0 <= i < |ps| => read(ps[i]).value)
  }

  /** The loading loop: for each path of the batch, `read_fn` either loads it and
      its stem and bytes are appended in lockstep, or it raises and the path is
      skipped. */
  method PrepareBatch(batch: seq<Path>, lang: string, read: Path -> Option<Bytes>)
    returns (fileNames: seq<string>, pdfs: seq<Bytes>, langs: seq<string>)
    ensures fileNames == StemsOf(Readable(batch, read))
    ensures pdfs == BytesOf(Readable(batch, read), read)
    ensures |langs| == |fileNames| && forall j :: 0 <= j < |langs| ==> langs[j] == lang
  {
    fileNames, pdfs, langs := [], [], [];
    var i := 0;
    while i < |batch|
      invariant 0 <= i <= |batch|
      invariant fileNames == StemsOf(Readable(batch[..i], read))
      invariant pdfs == BytesOf(Readable(batch[..i], read), read)
      invariant |langs| == |fileNames| && forall j :: 0 <= j < |langs| ==> langs[j] == lang
    {
      var path := batch[i];
      var fileName := Stem(path.name);
      assert batch[..i + 1][..i] == batch[..i];
      var loaded := read(path);
      if loaded.Some? {
        fileNames := fileNames + [fileName];
        pdfs := pdfs + [loaded.value];
        langs := langs + [lang];
      }
      i := i + 1;
    }
    assert batch[..i] == batch;
  }

  /** How many times `for batch_idx in range(total_batches)` runs. */
  function Iterations(n: nat, batchSize: int): nat
    requires batchSize != 0
  {
    var t := NumBatches(n, batchSize);
    if t < 0 then 0 else t
  }

  /** What batch `i` hands to `do_parse`: the stems and bytes of its loaded files
      (none when nothing loaded). */
  datatype BatchCall = BatchCall(names: seq<string>, pdfs: seq<Bytes>)

  function PlannedCall(paths: seq<Path>, batchSize: int, i: nat,
                       read: Path -> Option<Bytes>): BatchCall
  {
    var ready := Readable(BatchPaths(paths, batchSize, i), read);
    BatchCall(StemsOf(ready), BytesOf(ready, read))
  }

  function Plan(paths: seq<Path>, batchSize: int, count: nat,
                read: Path -> Option<Bytes>): (plan: seq<BatchCall>)
    ensures |plan| == count
  {
    seq(count, i requires 0 <= i < count => PlannedCall(paths, batchSize, i, read))
  }

  lemma PlanAt(paths: seq<Path>, batchSize: int, count: nat, i: nat,
                read: Path -> Option<Bytes>)
    requires i < count
    ensures Plan(paths, batchSize, count, read)[i] == PlannedCall(paths, batchSize, i, read)
  {
  }

  /** With a negative batch size no planned call has anything to hand over. */
  lemma NegativeBatchSizeNothingLoaded(paths: seq<Path>, batchSize: int, count: nat, i: nat,
                                       read: Path -> Option<Bytes>)
    requires batchSize < 0 && i < count && i < NumBatches(|paths|, batchSize)
    ensures Plan(paths, batchSize, count, read)[i].names == []
  {
    NegativeBatchSizeBatchesEmpty(paths, batchSize, i);
    PlanAt(paths, batchSize, count, i, read);
  }

  /** The events of batch `i`: nothing when no file of it could be loaded;
      otherwise its `do_parse` call, then a pause unless it is the last batch. */
  function BatchStep(plan: seq<BatchCall>, i: nat): seq<BatchEvent>
    requires i < |plan|
  {
    if plan[i].names == [] then []
    else
      [Dispatched(i, plan[i].names, plan[i].pdfs)]
      + (if i < |plan| - 1 then [Slept(BatchPauseSeconds)] else [])
  }

  /** The events of the first `k` batches. */
  function BatchEvents(plan: seq<BatchCall>, k: nat): seq<BatchEvent>
    requires k <= |plan|
  {
    if k == 0 then [] else BatchEvents(plan, k - 1) + BatchStep(plan, k - 1)
  }

  lemma BatchEventsStep(plan: seq<BatchCall>, k: nat)
    requires k < |plan|
    ensures BatchEvents(plan, k + 1) == BatchEvents(plan, k) + BatchStep(plan, k)
  {
  }

  /** The stems one event hands to `do_parse`. */
  function NamesOf(e: BatchEvent): seq<string>
  {
    if e.Dispatched? then e.names else []
  }

  /** The stems handed to `do_parse`, over all calls, in order. */
  function DispatchedNames(events: seq<BatchEvent>): seq<string>
  {
    if events == [] then [] else DispatchedNames(events[..|events| - 1]) + NamesOf(events[|events| - 1])
  }

  lemma {:induction false} DispatchedNamesAppend(a: seq<BatchEvent>, b: seq<BatchEvent>)
    ensures DispatchedNames(a + b) == DispatchedNames(a) + DispatchedNames(b)
    decreases |b|
  {
    if b != [] {
      var b' := b[..|b| - 1];
      assert (a + b)[..|a + b| - 1] == a + b';
      DispatchedNamesAppend(a, b');
    } else {
      assert a + b == a;
    }
  }

  /** The stems of the first `k` planned calls, concatenated. */
  function PlannedNames(plan: seq<BatchCall>, k: nat): seq<string>
    requires k <= |plan|
  {
    if k == 0 then [] else PlannedNames(plan, k - 1) + plan[k - 1].names
  }

  /** The events of the first `k` batches hand over the planned stems in order. */
  lemma DispatchedNamesPlanned(plan: seq<BatchCall>, k: nat)
    requires k <= |plan|
    ensures DispatchedNames(BatchEvents(plan, k)) == PlannedNames(plan, k)
  {
    assert BatchEvents(plan, 0) == [];
    var j := 0;
    while j < k
      invariant j <= k
      invariant DispatchedNames(BatchEvents(plan, j)) == PlannedNames(plan, j)
    {
      DispatchedNamesPlannedStep(plan, j + 1);
      j := j + 1;
    }
  }

  lemma DispatchedNamesPlannedStep(plan: seq<BatchCall>, k: nat)
    requires 1 <= k <= |plan|
    requires DispatchedNames(BatchEvents(plan, k - 1)) == PlannedNames(plan, k - 1)
    ensures DispatchedNames(BatchEvents(plan, k)) == PlannedNames(plan, k)
  {
    var prev := BatchEvents(plan, k - 1);
    var step := BatchStep(plan, k - 1);
    assert BatchEvents(plan, k) == prev + step;
    DispatchedNamesAppend(prev, step);
    DispatchedNamesOfStep(plan, k - 1);
  }

  lemma DispatchedNamesOfStep(plan: seq<BatchCall>, i: nat)
    requires i < |plan|
    ensures DispatchedNames(BatchStep(plan, i)) == plan[i].names
  {
    var step := BatchStep(plan, i);
    if plan[i].names != [] {
      var d := [Dispatched(i, plan[i].names, plan[i].pdfs)];
      assert d[..0] == [];
      assert DispatchedNames(d) == plan[i].names;
      if i < |plan| - 1 {
        assert step[..1] == d;
        assert DispatchedNames(step) == DispatchedNames(d);
      }
    }
  }

  /** The stems a plan hands over for each batch are those of its readable paths. */
  ghost predicate NamesFollowBatches(plan: seq<BatchCall>, paths: seq<Path>, batchSize: int,
                                     read: Path -> Option<Bytes>)
  {
    forall i :: 0 <= i < |plan| ==> plan[i].names == StemsOf(Readable(BatchPaths(paths, batchSize, i), read))
  }

  /** Over the first `k` batches the planned stems are those of the readable paths
      among the first `min(k * batchSize, n)` paths, in order. */
  lemma PlannedNamesPrefix(plan: seq<BatchCall>, paths: seq<Path>, batchSize: int,
                           read: Path -> Option<Bytes>, k: nat)
    requires batchSize >= 1 && k <= |plan| && NamesFollowBatches(plan, paths, batchSize, read)
    ensures PlannedNames(plan, k) == StemsOf(Readable(paths[..Min(k * batchSize, |paths|)], read))
  {
    assert paths[..Min(0 * batchSize, |paths|)] == [];
    assert PlannedNames(plan, 0) == [];
    var j := 0;
    while j < k
      invariant j <= k
      invariant PlannedNames(plan, j) == StemsOf(Readable(paths[..Min(j * batchSize, |paths|)], read))
    {
      PlannedNamesPrefixStep(plan, paths, batchSize, read, j + 1);
      j := j + 1;
    }
  }

  lemma PlannedNamesPrefixStep(plan: seq<BatchCall>, paths: seq<Path>, batchSize: int,
                               read: Path -> Option<Bytes>, k: nat)
    requires batchSize >= 1 && 1 <= k <= |plan| && NamesFollowBatches(plan, paths, batchSize, read)
    requires PlannedNames(plan, k - 1) == StemsOf(Readable(paths[..Min((k - 1) * batchSize, |paths|)], read))
    ensures PlannedNames(plan, k) == StemsOf(Readable(paths[..Min(k * batchSize, |paths|)], read))
  {
    var batch := BatchPaths(paths, batchSize, k - 1);
    PrefixStepAt(paths, batchSize, k);
    MulMonotone(0, k - 1, batchSize);
    var prev := paths[..Min((k - 1) * batchSize, |paths|)];
    ReadableAppend(prev, batch, read);
    StemsOfAppend(Readable(prev, read), Readable(batch, read));
    assert plan[k - 1].names == StemsOf(Readable(batch, read));
  }

  lemma {:induction false} PlanNamesFollowBatches(paths: seq<Path>, batchSize: int, count: nat,
                               read: Path -> Option<Bytes>)
    ensures NamesFollowBatches(Plan(paths, batchSize, count, read), paths, batchSize, read)
  {
    forall i | 0 <= i < count {
      PlannedNamesOf(paths, batchSize, count, i, read);
    }
  }

  lemma PlannedNamesOf(paths: seq<Path>, batchSize: int, count: nat, i: nat,
                       read: Path -> Option<Bytes>)
    requires i < count
    ensures Plan(paths, batchSize, count, read)[i].names
         == StemsOf(Readable(BatchPaths(paths, batchSize, i), read))
  {
    PlanAt(paths, batchSize, count, i, read);
  }

  lemma StemsOfAppend(a: seq<Path>, b: seq<Path>)
    ensures StemsOf(a + b) == StemsOf(a) + StemsOf(b)
  {
  }

  /** With a positive batch size, `do_parse` sees the stem of every loadable path
      exactly once, in path order, and no other stem. */
  lemma DispatchedNamesAreReadableStems(paths: seq<Path>, batchSize: int,
                                        read: Path -> Option<Bytes>)
    requires batchSize >= 1
    ensures var plan := Plan(paths, batchSize, Iterations(|paths|, batchSize), read);
      DispatchedNames(BatchEvents(plan, |plan|)) == StemsOf(Readable(paths, read))
  {
    var total := Iterations(|paths|, batchSize);
    var plan := Plan(paths, batchSize, total, read);
    NumBatchesIsCeiling(|paths|, batchSize);
    DispatchedNamesPlanned(plan, total);
    PlanNamesFollowBatches(paths, batchSize, total, read);
    PlannedNamesPrefix(plan, paths, batchSize, read, total);
    assert Min(total * batchSize, |paths|) == |paths|;
    assert paths[..|paths|] == paths;
  }

  /** A pause always comes right after a `do_parse` call for a batch that is not
      the last. */
  ghost predicate PausesFollowCalls(events: seq<BatchEvent>, total: int)
  {
    forall j :: 0 <= j < |events| && events[j].Slept? ==>
      && 0 < j && events[j - 1].Dispatched? && events[j - 1].batch < total - 1
      && events[j] == Slept(BatchPauseSeconds)
  }

  /** Calls name batches below `k` in increasing order, so each batch is handed
      over at most once, and only batches with loaded files are. */
  ghost predicate CallsInBatchOrder(plan: seq<BatchCall>, events: seq<BatchEvent>, k: nat)
  {
    forall j :: 0 <= j < |events| && events[j].Dispatched? ==>
      && events[j].batch < k && k <= |plan|
      && events[j].names == plan[events[j].batch].names != []
      && events[j].pdfs == plan[events[j].batch].pdfs
      && forall j' :: j < j' < |events| && events[j'].Dispatched? ==> events[j].batch < events[j'].batch
  }

  lemma {:induction false} BatchEventsPaced(plan: seq<BatchCall>, k: nat)
    requires k <= |plan|
    ensures PausesFollowCalls(BatchEvents(plan, k), |plan|)
  {
    assert BatchEvents(plan, 0) == [];
    var j := 0;
    while j < k
      invariant j <= k
      invariant PausesFollowCalls(BatchEvents(plan, j), |plan|)
    {
      BatchEventsPacedStep(plan, j + 1);
      j := j + 1;
    }
  }

  lemma {:induction false} BatchEventsPacedStep(plan: seq<BatchCall>, k: nat)
    requires 1 <= k <= |plan| && PausesFollowCalls(BatchEvents(plan, k - 1), |plan|)
    ensures PausesFollowCalls(BatchEvents(plan, k), |plan|)
  {
    var prev := BatchEvents(plan, k - 1);
    var step := BatchStep(plan, k - 1);
    var all := prev + step;
    assert BatchEvents(plan, k) == all;
    forall j | 0 <= j < |all| && all[j].Slept?
      ensures 0 < j && all[j - 1].Dispatched? && all[j - 1].batch < |plan| - 1
           && all[j] == Slept(BatchPauseSeconds)
    {
      if j < |prev| {
        assert all[j] == prev[j] && all[j - 1] == prev[j - 1];
      } else {
        assert all[j] == step[j - |prev|];
        assert j == |prev| + 1 && all[j - 1] == step[0];
      }
    }
  }

  /** Every `do_parse` call for a batch that is not the last is followed right
      away by a pause. */
  ghost predicate CallsFollowedByPause(events: seq<BatchEvent>, total: int)
  {
    forall j :: 0 <= j < |events| && events[j].Dispatched? && events[j].batch < total - 1 ==>
      j + 1 < |events| && events[j + 1] == Slept(BatchPauseSeconds)
  }

  lemma {:induction false} BatchEventsCallsPaused(plan: seq<BatchCall>, k: nat)
    requires k <= |plan|
    ensures CallsFollowedByPause(BatchEvents(plan, k), |plan|)
  {
    assert BatchEvents(plan, 0) == [];
    var j := 0;
    while j < k
      invariant j <= k
      invariant CallsFollowedByPause(BatchEvents(plan, j), |plan|)
    {
      BatchEventsCallsPausedStep(plan, j + 1);
      j := j + 1;
    }
  }

  lemma BatchEventsCallsPausedStep(plan: seq<BatchCall>, k: nat)
    requires 1 <= k <= |plan| && CallsFollowedByPause(BatchEvents(plan, k - 1), |plan|)
    ensures CallsFollowedByPause(BatchEvents(plan, k), |plan|)
  {
    var prev := BatchEvents(plan, k - 1);
    var step := BatchStep(plan, k - 1);
    var all := prev + step;
    assert BatchEvents(plan, k) == all;
    forall j | 0 <= j < |all| && all[j].Dispatched? && all[j].batch < |plan| - 1
      ensures j + 1 < |all| && all[j + 1] == Slept(BatchPauseSeconds)
    {
      if j < |prev| {
        assert all[j] == prev[j];
        if j + 1 < |prev| {
          assert all[j + 1] == prev[j + 1];
        }
      } else {
        assert all[j] == step[j - |prev|];
        assert j == |prev| && all[j + 1] == step[1];
      }
    }
  }

  lemma {:induction false} BatchEventsOrdered(plan: seq<BatchCall>, k: nat)
    requires k <= |plan|
    ensures CallsInBatchOrder(plan, BatchEvents(plan, k), k)
  {
    assert BatchEvents(plan, 0) == [];
    var j := 0;
    while j < k
      invariant j <= k
      invariant CallsInBatchOrder(plan, BatchEvents(plan, j), j)
    {
      BatchEventsOrderedStep(plan, j + 1);
      j := j + 1;
    }
  }

  lemma {:induction false} BatchEventsOrderedStep(plan: seq<BatchCall>, k: nat)
    requires 1 <= k <= |plan| && CallsInBatchOrder(plan, BatchEvents(plan, k - 1), k - 1)
    ensures CallsInBatchOrder(plan, BatchEvents(plan, k), k)
  {
    var prev := BatchEvents(plan, k - 1);
    var step := BatchStep(plan, k - 1);
    var all := prev + step;
    assert BatchEvents(plan, k) == all;
    forall j | 0 <= j < |all| && all[j].Dispatched?
      ensures && all[j].batch < k
              && all[j].names == plan[all[j].batch].names != []
              && all[j].pdfs == plan[all[j].batch].pdfs
              && forall j' :: j < j' < |all| && all[j'].Dispatched? ==> all[j].batch < all[j'].batch
    {
      if j < |prev| {
        assert all[j] == prev[j];
        forall j' | j < j' < |all| && all[j'].Dispatched? ensures all[j].batch < all[j'].batch {
          if j' < |prev| {
            assert all[j'] == prev[j'];
          } else {
            assert all[j'] == step[j' - |prev|];
          }
        }
      } else {
        assert all[j] == step[j - |prev|];
      }
    }
  }

  /** `parse_doc`: with a positive batch size the batches are visited in order
      with the events above; a zero batch size makes the division raise inside
      the `try` body, where the handler catches it, and a negative one only
      yields empty batches, so neither does anything. */
  method ParseDoc(paths: seq<Path>, batchSize: int, lang: string, opts: ParseOptions,
                  read: Path -> Option<Bytes>, pl: Pipeline)
    returns (events: seq<BatchEvent>)
    ensures batchSize <= 0 ==> events == []
    ensures batchSize >= 1 ==>
      events == BatchEvents(Plan(paths, batchSize, Iterations(|paths|, batchSize), read),
                            Iterations(|paths|, batchSize))
  {
    events := [];
    if batchSize == 0 {
      // The division by zero raises and the handler only logs it.
      return;
    }
    var totalBatches := FloorDiv(|paths| + batchSize - 1, batchSize);
    ghost var plan := Plan(paths, batchSize, Iterations(|paths|, batchSize), read);
    PlanFollowsBatches(paths, batchSize, |plan|, read);
    events := RunBatches(paths, batchSize, totalBatches, lang, opts, read, pl, plan);
  }

  /** Every entry of the plan is what the loop body computes for that batch. */
  ghost predicate PlanFollows(plan: seq<BatchCall>, paths: seq<Path>, batchSize: int,
                              read: Path -> Option<Bytes>)
  {
    forall i :: 0 <= i < |plan| ==> plan[i] == PlannedCall(paths, batchSize, i, read)
  }

  lemma PlanFollowsBatches(paths: seq<Path>, batchSize: int, count: nat, read: Path -> Option<Bytes>)
    ensures PlanFollows(Plan(paths, batchSize, count, read), paths, batchSize, read)
  {
    forall i | 0 <= i < count {
      PlanAt(paths, batchSize, count, i, read);
    }
  }

  /** The `for batch_idx in range(total_batches)` loop of `parse_doc`. */
  method RunBatches(paths: seq<Path>, batchSize: int, totalBatches: int, lang: string,
                    opts: ParseOptions, read: Path -> Option<Bytes>, pl: Pipeline,
                    ghost plan: seq<BatchCall>)
    returns (events: seq<BatchEvent>)
    requires batchSize != 0 && totalBatches == NumBatches(|paths|, batchSize)
    requires |plan| == Iterations(|paths|, batchSize) && PlanFollows(plan, paths, batchSize, read)
    ensures events == BatchEvents(plan, |plan|)
    ensures batchSize < 0 ==> events == []
  {
    events := [];
    var batchIdx := 0;
    while batchIdx < totalBatches
      invariant 0 <= batchIdx <= |plan|
      invariant events == BatchEvents(plan, batchIdx)
      invariant batchSize < 0 ==> events == []
    {
      var added := RunBatch(paths, batchSize, batchIdx, totalBatches, lang, opts, read, pl, plan);
      BatchEventsStep(plan, batchIdx);
      events := events + added;
      batchIdx := batchIdx + 1;
    }
    assert batchIdx == |plan|;
  }

  /** One pass of the loop body of `parse_doc`: slice batch `batchIdx`, load it,
      hand it to `do_parse` when something loaded, then pause unless it is the
      last batch. */
  method RunBatch(paths: seq<Path>, batchSize: int, batchIdx: nat, totalBatches: int,
                  lang: string, opts: ParseOptions, read: Path -> Option<Bytes>, pl: Pipeline,
                  ghost plan: seq<BatchCall>)
    returns (added: seq<BatchEvent>)
    requires batchSize != 0 && totalBatches == NumBatches(|paths|, batchSize)
    requires batchIdx < totalBatches == |plan|
    requires plan[batchIdx] == PlannedCall(paths, batchSize, batchIdx, read)
    ensures added == BatchStep(plan, batchIdx)
    ensures batchSize < 0 ==> added == []
  {
    added := [];
    if batchSize < 0 {
      NegativeBatchSizeBatchesEmpty(paths, batchSize, batchIdx);
    }
    var fileNames, pdfs := LoadBatch(paths, batchSize, batchIdx, lang, read);
    if fileNames != [] {
      var effects, completed := DoParse(fileNames, pdfs, opts, pl);
      added := [Dispatched(batchIdx, fileNames, pdfs)];
      if batchIdx < totalBatches - 1 {
        added := added + [Slept(BatchPauseSeconds)];
      }
    }
  }

  /** Slicing batch `batchIdx` out of the path list and loading it. */
  method LoadBatch(paths: seq<Path>, batchSize: int, batchIdx: nat, lang: string,
                   read: Path -> Option<Bytes>)
    returns (fileNames: seq<string>, pdfs: seq<Bytes>)
    ensures BatchCall(fileNames, pdfs) == PlannedCall(paths, batchSize, batchIdx, read)
  {
    var startIdx := batchIdx * batchSize;
    var endIdx := Min(startIdx + batchSize, |paths|);
    var currentBatch := Slice(paths, startIdx, endIdx);
    var langs;
    fileNames, pdfs, langs := PrepareBatch(currentBatch, lang, read);
  }
}
