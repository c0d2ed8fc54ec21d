/**
  Which files each pod of the workload simulator processes: round-robin shards of the sorted
  listing, and a greedy selection under a file-count cap and a byte budget.
 */
module WorkloadSelection {
  import opened Wrappers
  import opened Numbers

  /** A listed file. Classification refuses negative sizes before an entry is made. */
  datatype FileEntry = FileEntry(path: string, size: nat, bucket: string)

  datatype SelectionError = PodCountNotPositive | PodIndexOutOfRange | NegativeFileCap | NegativeByteCap

  // ---------------------------------------------------------------- shards

  /** Every element whose index is `pod` modulo `pods`. */
  function Shard<T>(xs: seq<T>, pod: nat, pods: nat): seq<T>
    requires pod < pods
  {
    if xs == [] then []
    else
      var n := |xs| - 1;
      Shard(xs[..n], pod, pods) + if n % pods == pod then [xs[n]] else []
  }

  /** Shard sizes differ by at most one: the first `|xs| % pods` pods get one more. */
  lemma {:induction false} ShardSize<T>(xs: seq<T>, pod: nat, pods: nat)
    requires pod < pods
    ensures |Shard(xs, pod, pods)| == |xs| / pods + if pod < |xs| % pods then 1 else 0
  {
    if xs == [] {
      DivModUnique(0, pods, 0, 0);
    } else {
      ShardSize(xs[..|xs| - 1], pod, pods);
      DivModStep(|xs| - 1, pods);
    }
  }

  /** The round robin: the j-th file of a pod is the (pod + j * pods)-th entry. */
  lemma {:induction false} ShardStride<T>(xs: seq<T>, pod: nat, pods: nat, j: nat)
    requires pod < pods && j < |Shard(xs, pod, pods)|
    ensures pod + j * pods < |xs| && Shard(xs, pod, pods)[j] == xs[pod + j * pods]
  {
    if xs == [] {
    } else {
      var n := |xs| - 1;
      var before := Shard(xs[..n], pod, pods);
      if j < |before| {
        ShardStride(xs[..n], pod, pods, j);
      } else {
        ShardSize(xs[..n], pod, pods);
        assert n == (n / pods) * pods + n % pods;
      }
    }
  }

  lemma {:induction false} ShardFull<T>(xs: seq<T>, pod: nat, pods: nat)
    requires pod < pods
    ensures forall j: nat | j < |Shard(xs, pod, pods)| ::
              pod + j * pods < |xs| && Shard(xs, pod, pods)[j] == xs[pod + j * pods]
  {
    forall j: nat | j < |Shard(xs, pod, pods)|
      ensures pod + j * pods < |xs| && Shard(xs, pod, pods)[j] == xs[pod + j * pods]
    {
      ShardStride(xs, pod, pods, j);
    }
  }

  /** `shard_files`: which index fails with which error, and which entries a valid one gets. */
  function ShardFiles<T>(entries: seq<T>, podIndex: int, podCount: int): (r: Result<seq<T>, SelectionError>)
    ensures r.Ok? <==> 0 <= podIndex < podCount
    ensures r == Err(PodCountNotPositive) <==> podCount <= 0
    ensures r.Ok? ==> |r.value| == |entries| / podCount + if podIndex < |entries| % podCount then 1 else 0
    ensures r.Ok? ==> forall j: nat | j < |r.value| ::
                        podIndex + j * podCount < |entries| && r.value[j] == entries[podIndex + j * podCount]
  {
    if podCount <= 0 then Err(PodCountNotPositive)
    else if !(0 <= podIndex < podCount) then Err(PodIndexOutOfRange)
    else
      ShardSize(entries, podIndex, podCount);
      ShardFull(entries, podIndex, podCount);
      Ok(Shard(entries, podIndex, podCount))
  }

  function Pooled<T>(parts: seq<seq<T>>): multiset<T> {
    if parts == [] then multiset{} else Pooled(parts[..|parts| - 1]) + multiset(parts[|parts| - 1])
  }

  function Shards<T>(xs: seq<T>, pods: nat): seq<seq<T>> {
    seq(pods, pod requires 0 <= pod < pods => Shard(xs, pod, pods))
  }

  lemma {:induction false} PooledOneMore<T>(parts: seq<seq<T>>, more: seq<seq<T>>, p: nat, x: T)
    requires |parts| == |more| && p < |parts| && more[p] == parts[p] + [x]
    requires forall i | 0 <= i < |parts| && i != p :: more[i] == parts[i]
    ensures Pooled(more) == Pooled(parts) + multiset{x}
  {
    var n := |parts| - 1;
    if p == n {
      assert more[..n] == parts[..n];
    } else {
      PooledOneMore(parts[..n], more[..n], p, x);
    }
  }

  lemma {:induction false} PooledEmpty<T>(parts: seq<seq<T>>)
    requires forall i | 0 <= i < |parts| :: parts[i] == []
    ensures Pooled(parts) == multiset{}
  {
    if parts == [] {
    } else {
      PooledEmpty(parts[..|parts| - 1]);
    }
  }

  lemma ShardOneMore<T>(xs: seq<T>, pod: nat, pods: nat)
    requires pod < pods && xs != []
    ensures var n := |xs| - 1;
            Shard(xs, pod, pods) == Shard(xs[..n], pod, pods) + if pod == n % pods then [xs[n]] else []
  {}

  /** The shards of all pods hold each entry exactly once. */
  lemma {:induction false} ShardsPartition<T>(xs: seq<T>, pods: nat)
    requires pods > 0
    ensures Pooled(Shards(xs, pods)) == multiset(xs)
  {
    if xs == [] {
      PooledEmpty(Shards(xs, pods));
    } else {
      var n := |xs| - 1;
      ShardsPartition(xs[..n], pods);
      forall i | 0 <= i < pods
        ensures Shards(xs, pods)[i] == Shards(xs[..n], pods)[i] + if i == n % pods then [xs[n]] else []
      {
        ShardOneMore(xs, i, pods);
      }
      PooledOneMore(Shards(xs[..n], pods), Shards(xs, pods), n % pods, xs[n]);
      assert xs == xs[..n] + [xs[n]];
    }
  }

  // ---------------------------------------------------------------- greedy selection

  function Bytes(files: seq<FileEntry>): nat {
    if files == [] then 0 else Bytes(files[..|files| - 1]) + files[|files| - 1].size
  }

  /** Bytes is the sum of the sizes: additive, and the size on a single file. */
  lemma {:induction false} BytesAdd(a: seq<FileEntry>, b: seq<FileEntry>)
    ensures Bytes(a + b) == Bytes(a) + Bytes(b)
    ensures |b| == 1 ==> Bytes(b) == b[0].size
    ensures b == [] ==> Bytes(b) == 0
  {
    if b == [] {
      assert a + b == a;
    } else {
      var n := |b| - 1;
      BytesAdd(a, b[..n]);
      assert (a + b)[..|a + b| - 1] == a + b[..n];
      assert |b| == 1 ==> b[..n] == [];
    }
  }

  predicate Full(selected: seq<FileEntry>, fileCap: Option<nat>) {
    fileCap.Some? && |selected| >= fileCap.value
  }

  predicate TooBig(selected: seq<FileEntry>, entry: FileEntry, byteCap: Option<nat>) {
    byteCap.Some? && Bytes(selected) + entry.size > byteCap.value
  }

  /** What the scan of a shuffled shard selects. */
  function Greedy(ordered: seq<FileEntry>, fileCap: Option<nat>, byteCap: Option<nat>): seq<FileEntry> {
    if ordered == [] then []
    else
      var last, selected := ordered[|ordered| - 1], Greedy(ordered[..|ordered| - 1], fileCap, byteCap);
      if Full(selected, fileCap) || TooBig(selected, last, byteCap) then selected else selected + [last]
  }

  /** `select_files`; `ordered` is the shuffled shard. */
  method SelectFiles(shard: seq<FileEntry>, ordered: seq<FileEntry>, filesPerPod: Option<int>,
                     maxBytesPerPod: Option<int>)
    returns (r: Result<seq<FileEntry>, SelectionError>)
    requires multiset(ordered) == multiset(shard)
    ensures r == Err(NegativeFileCap) <==> filesPerPod.Some? && filesPerPod.value < 0
    ensures r == Err(NegativeByteCap) <==>
            !(filesPerPod.Some? && filesPerPod.value < 0) && maxBytesPerPod.Some? && maxBytesPerPod.value < 0
    ensures (filesPerPod.None? || filesPerPod.value >= 0) && (maxBytesPerPod.None? || maxBytesPerPod.value >= 0) ==>
              r == Ok(Greedy(ordered, AsCap(filesPerPod), AsCap(maxBytesPerPod)))
  {
    if filesPerPod.Some? && filesPerPod.value < 0 { return Err(NegativeFileCap); }
    if maxBytesPerPod.Some? && maxBytesPerPod.value < 0 { return Err(NegativeByteCap); }
    ghost var fileCap, byteCap := AsCap(filesPerPod), AsCap(maxBytesPerPod);
    var selected, totalBytes := [], 0;
    for i := 0 to |ordered|
      invariant selected == Greedy(ordered[..i], fileCap, byteCap) && totalBytes == Bytes(selected)
    {
      assert ordered[..i + 1][..i] == ordered[..i];
      if filesPerPod.Some? && |selected| >= filesPerPod.value {
        FullStays(ordered, i, fileCap, byteCap);
        return Ok(selected);
      }
      if maxBytesPerPod.Some? && totalBytes + ordered[i].size > maxBytesPerPod.value {
        continue;
      }
      assert (selected + [ordered[i]])[..|selected|] == selected;
      selected := selected + [ordered[i]];
      totalBytes := totalBytes + ordered[i].size;
    }
    assert ordered[..|ordered|] == ordered;
    return Ok(selected);
  }

  function AsCap(cap: Option<int>): Option<nat> {
    if cap.Some? && cap.value >= 0 then Some(cap.value) else None
  }

  /** Once the file cap is reached the scan may stop. */
  lemma {:induction false} FullStays(ordered: seq<FileEntry>, i: nat, fileCap: Option<nat>, byteCap: Option<nat>)
    requires i <= |ordered| && Full(Greedy(ordered[..i], fileCap, byteCap), fileCap)
    ensures Greedy(ordered, fileCap, byteCap) == Greedy(ordered[..i], fileCap, byteCap)
  {
    if i == |ordered| {
      assert ordered[..i] == ordered;
    } else {
      assert ordered[..|ordered| - 1][..i] == ordered[..i];
      FullStays(ordered[..|ordered| - 1], i, fileCap, byteCap);
    }
  }

  /** Both caps hold, and the selection takes files from the shard without repeating any. */
  lemma {:induction false} CapsRespected(ordered: seq<FileEntry>, fileCap: Option<nat>, byteCap: Option<nat>)
    ensures fileCap.Some? ==> |Greedy(ordered, fileCap, byteCap)| <= fileCap.value
    ensures byteCap.Some? ==> Bytes(Greedy(ordered, fileCap, byteCap)) <= byteCap.value
    ensures multiset(Greedy(ordered, fileCap, byteCap)) <= multiset(ordered)
  {
    if ordered == [] {
    } else {
      var n := |ordered| - 1;
      CapsRespected(ordered[..n], fileCap, byteCap);
      var before := Greedy(ordered[..n], fileCap, byteCap);
      assert (before + [ordered[n]])[..|before|] == before;
      assert ordered == ordered[..n] + [ordered[n]];
    }
  }

  /**
    A file left out although the count cap was not reached exceeds what is left of the budget: the
    bytes selected plus its size are above the byte cap.
   */
  lemma {:induction false} NothingLeftFits(ordered: seq<FileEntry>, fileCap: Option<nat>, byteCap: Option<nat>,
                                           entry: FileEntry)
    requires var selected := Greedy(ordered, fileCap, byteCap);
             && (fileCap.Some? ==> |selected| < fileCap.value)
             && multiset(selected)[entry] < multiset(ordered)[entry]
    ensures byteCap.Some? && Bytes(Greedy(ordered, fileCap, byteCap)) + entry.size > byteCap.value
  {
    if ordered == [] {
    } else {
      var n := |ordered| - 1;
      var before, last := Greedy(ordered[..n], fileCap, byteCap), ordered[n];
      assert ordered == ordered[..n] + [last];
      assert (before + [last])[..|before|] == before;
      if multiset(before)[entry] < multiset(ordered[..n])[entry] {
        NothingLeftFits(ordered[..n], fileCap, byteCap, entry);
      } else {
        CapsRespected(ordered[..n], fileCap, byteCap);
        assert multiset(before)[entry] == multiset(ordered[..n])[entry];
      }
    }
  }

  /** The scan at position `i`: the file is appended exactly when the count cap leaves room and it fits the budget left. */
  lemma ScanTakesWhatFits(ordered: seq<FileEntry>, i: nat, fileCap: Option<nat>, byteCap: Option<nat>)
    requires i < |ordered|
    ensures var before, after := Greedy(ordered[..i], fileCap, byteCap), Greedy(ordered[..i + 1], fileCap, byteCap);
            var fits := (fileCap.Some? ==> |before| < fileCap.value)
                        && (byteCap.Some? ==> Bytes(before) + ordered[i].size <= byteCap.value);
            after == if fits then before + [ordered[i]] else before
  {
    assert ordered[..i + 1][..i] == ordered[..i];
  }

  /** The count cap only shortens the selection: it keeps the first files of the selection without one. */
  lemma {:induction false} CountCapTakesPrefix(ordered: seq<FileEntry>, cap: nat, byteCap: Option<nat>)
    ensures var all := Greedy(ordered, None, byteCap);
            Greedy(ordered, Some(cap), byteCap) == if cap <= |all| then all[..cap] else all
  {
    if ordered == [] {
    } else {
      CountCapTakesPrefix(ordered[..|ordered| - 1], cap, byteCap);
    }
  }

  lemma {:induction false} WithoutCapsEverything(ordered: seq<FileEntry>)
    ensures Greedy(ordered, None, None) == ordered
  {
    if ordered == [] {
    } else {
      WithoutCapsEverything(ordered[..|ordered| - 1]);
      assert ordered == ordered[..|ordered| - 1] + [ordered[|ordered| - 1]];
    }
  }

  // ---------------------------------------------------------------- one epoch over all pods

  /** What the pods select in one epoch, each from its own shuffled shard. */
  ghost predicate Epoch(entries: seq<FileEntry>, pods: nat, fileCap: Option<nat>, byteCap: Option<nat>,
                        orders: seq<seq<FileEntry>>, selections: seq<seq<FileEntry>>)
  {
    && |orders| == |selections| == pods > 0
    && (forall p | 0 <= p < pods :: multiset(orders[p]) == multiset(Shard(entries, p, pods)))
    && (forall p | 0 <= p < pods :: selections[p] == Greedy(orders[p], fileCap, byteCap))
  }

  lemma {:induction false} PooledMonotone<T>(a: seq<seq<T>>, b: seq<seq<T>>)
    requires |a| == |b| && forall i | 0 <= i < |a| :: multiset(a[i]) <= multiset(b[i])
    ensures Pooled(a) <= Pooled(b)
  {
    if a == [] {
    } else {
      PooledMonotone(a[..|a| - 1], b[..|b| - 1]);
    }
  }

  /** No file is processed by two pods, or twice by one, under any caps and shuffles. */
  lemma EpochNeverRepeats(entries: seq<FileEntry>, pods: nat, fileCap: Option<nat>, byteCap: Option<nat>,
                          orders: seq<seq<FileEntry>>, selections: seq<seq<FileEntry>>)
    requires Epoch(entries, pods, fileCap, byteCap, orders, selections)
    ensures Pooled(selections) <= multiset(entries)
  {
    forall p | 0 <= p < pods ensures multiset(selections[p]) <= multiset(Shards(entries, pods)[p]) {
      CapsRespected(orders[p], fileCap, byteCap);
    }
    PooledMonotone(selections, Shards(entries, pods));
    ShardsPartition(entries, pods);
  }

  /** Without caps the pods together process each entry exactly once per epoch, whatever the shuffles. */
  lemma EpochCoversDataset(entries: seq<FileEntry>, pods: nat,
                           orders: seq<seq<FileEntry>>, selections: seq<seq<FileEntry>>)
    requires Epoch(entries, pods, None, None, orders, selections)
    ensures Pooled(selections) == multiset(entries)
  {
    forall p | 0 <= p < pods ensures multiset(Shards(entries, pods)[p]) <= multiset(selections[p]) {
      WithoutCapsEverything(orders[p]);
    }
    PooledMonotone(Shards(entries, pods), selections);
    ShardsPartition(entries, pods);
    EpochNeverRepeats(entries, pods, None, None, orders, selections);
  }
}
