/**
  What each figure of an output row of the per-filesystem aggregation is, in terms of the samples of
  that filesystem alone.
 */
module LustreAggregateRows {
  import opened Wrappers
  import opened Numbers
  import opened Models
  import opened LustreAggregation

  predicate OfOst(m: OstMetric, key: Labels) {
    key == [m.subscriptionId, m.resourceGroup, m.filesystemName, m.location]
  }

  predicate OfOstOperation(m: OstOperationMetric, key: Labels) {
    key == [m.subscriptionId, m.resourceGroup, m.filesystemName, m.location]
  }

  predicate OfMdt(m: MdtMetric, key: Labels) {
    key == [m.subscriptionId, m.resourceGroup, m.filesystemName, m.location]
  }

  predicate OfMdtOperation(m: MdtOperationMetric, key: Labels) {
    key == [m.subscriptionId, m.resourceGroup, m.filesystemName, m.location]
  }

  // ---------------------------------------------------------------- sums over one filesystem

  /** The metadata operations of a filesystem, absent figures as zero. */
  function MetadataOps(samples: seq<MdtOperationMetric>, key: Labels): real {
    if samples == [] then 0.0
    else
      var last := samples[|samples| - 1];
      MetadataOps(samples[..|samples| - 1], key)
      + if OfMdtOperation(last, key) && last.clientOps.Some? then last.clientOps.value else 0.0
  }

  /** Its read and write operations together. */
  function DataOps(samples: seq<OstMetric>, key: Labels): real {
    if samples == [] then 0.0
    else
      var last := samples[|samples| - 1];
      DataOps(samples[..|samples| - 1], key)
      + (if OfOst(last, key) && last.clientReadOps.Some? then last.clientReadOps.value else 0.0)
      + (if OfOst(last, key) && last.clientWriteOps.Some? then last.clientWriteOps.value else 0.0)
  }

  function Evictions(samples: seq<MdtMetric>, key: Labels): real {
    if samples == [] then 0.0
    else
      var last := samples[|samples| - 1];
      Evictions(samples[..|samples| - 1], key)
      + if OfMdt(last, key) && last.clientEvictions.Some? then last.clientEvictions.value else 0.0
  }

  lemma TagInit<T>(samples: seq<T>, f: T -> Tagged)
    requires samples != []
    ensures var n := |samples| - 1; |Tag(samples, f)| == n + 1
    ensures var n := |samples| - 1; Tag(samples, f)[..n] == Tag(samples[..n], f) && Tag(samples, f)[n] == f(samples[n])
  {}

  lemma {:induction false} MetadataOpsShares(samples: seq<MdtOperationMetric>, key: Labels)
    ensures Shares(Tag(samples, MetadataOpsOf), key) == MetadataOps(samples, key)
  {
    if samples == [] {
    } else {
      MetadataOpsShares(samples[..|samples| - 1], key);
      TagInit(samples, MetadataOpsOf);
    }
  }

  lemma {:induction false} DataOpsShares(samples: seq<OstMetric>, key: Labels)
    ensures Shares(Tag(samples, DataOpsOf), key) == DataOps(samples, key)
  {
    if samples == [] {
    } else {
      DataOpsShares(samples[..|samples| - 1], key);
      TagInit(samples, DataOpsOf);
    }
  }

  lemma {:induction false} EvictionsShares(samples: seq<MdtMetric>, key: Labels)
    ensures Shares(Tag(samples, EvictionsOf), key) == Evictions(samples, key)
  {
    if samples == [] {
    } else {
      EvictionsShares(samples[..|samples| - 1], key);
      TagInit(samples, EvictionsOf);
    }
  }

  // ---------------------------------------------------------------- the amplification ratio

  lemma RatioOf(input: Input, now: real, key: Labels)
    ensures AggregateFor(input, now, key).metadataAmplificationRatio
         == Some(MetadataOps(input.mdtOperations, key) / Larger(DataOps(input.osts, key), 1.0))
  {
    SumIsShares(Tag(input.mdtOperations, MetadataOpsOf), key);
    SumIsShares(Tag(input.osts, DataOpsOf), key);
    MetadataOpsShares(input.mdtOperations, key);
    DataOpsShares(input.osts, key);
  }

  /** The ratio of a row: times the data operations, or one if they are fewer, it is the metadata operations. */
  ghost predicate IsRatio(ratio: Option<real>, metadata: real, data: real) {
    ratio.Some? && ratio.value * (if data >= 1.0 then data else 1.0) == metadata
  }

  lemma QuotientIsRatio(metadata: real, data: real)
    ensures IsRatio(Some(metadata / Larger(data, 1.0)), metadata, data)
  {}

  lemma RatioMeaning(input: Input, now: real, r: seq<AggregateMetric>, i: nat)
    requires Aggregated(input, now, r) && i < |r|
    ensures IsRatio(r[i].metadataAmplificationRatio,
                    MetadataOps(input.mdtOperations, r[i].key), DataOps(input.osts, r[i].key))
  {
    RatioOf(input, now, r[i].key);
    QuotientIsRatio(MetadataOps(input.mdtOperations, r[i].key), DataOps(input.osts, r[i].key));
  }

  lemma RatioOrder(x: Option<real>, m: real, a: real, y: Option<real>, n: real, b: real)
    requires IsRatio(x, m, a) && IsRatio(y, n, b) && 0.0 <= m <= n && a >= b
    ensures x.value <= y.value
  {
    var c, d := if a >= 1.0 then a else 1.0, if b >= 1.0 then b else 1.0;
    if x.value > 0.0 {
      Product(x.value, c - d);
      assert x.value * (c - d) == x.value * c - x.value * d;
      Cancel(x.value, y.value, d);
    } else {
      Cancel(0.0, y.value, d);
    }
  }

  /** More metadata operations never lower the ratio, and more data operations never raise it. */
  lemma RatioMonotone(x: Input, y: Input, now: real, later: real, r: seq<AggregateMetric>, i: nat,
                      q: seq<AggregateMetric>, j: nat)
    requires Aggregated(x, now, r) && i < |r| && Aggregated(y, later, q) && j < |q| && r[i].key == q[j].key
    requires 0.0 <= MetadataOps(x.mdtOperations, r[i].key) <= MetadataOps(y.mdtOperations, r[i].key)
    requires DataOps(x.osts, r[i].key) >= DataOps(y.osts, r[i].key)
    ensures r[i].metadataAmplificationRatio.Some? && q[j].metadataAmplificationRatio.Some?
    ensures r[i].metadataAmplificationRatio.value <= q[j].metadataAmplificationRatio.value
  {
    RatioMeaning(x, now, r, i);
    RatioMeaning(y, later, q, j);
    var key := r[i].key;
    RatioOrder(r[i].metadataAmplificationRatio, MetadataOps(x.mdtOperations, key), DataOps(x.osts, key),
               q[j].metadataAmplificationRatio, MetadataOps(y.mdtOperations, key), DataOps(y.osts, key));
  }

  // ---------------------------------------------------------------- clients and evictions

  /** A client figure of an MDT sample of the filesystem. */
  ghost predicate HasClients(mdts: seq<MdtMetric>, key: Labels, v: real) {
    exists k :: 0 <= k < |mdts| && OfMdt(mdts[k], key) && mdts[k].connectedClients == Some(v)
  }

  ghost predicate HasEvictions(mdts: seq<MdtMetric>, key: Labels, v: real) {
    exists k :: 0 <= k < |mdts| && OfMdt(mdts[k], key) && mdts[k].clientEvictions == Some(v)
  }

  lemma ClientsTagged(mdts: seq<MdtMetric>, key: Labels, v: real)
    ensures Some(v) in OfKey(Tag(mdts, ClientsOf), key) <==> HasClients(mdts, key, v)
  {
    var tagged := Tag(mdts, ClientsOf);
    OfKeyMembers(tagged, key, Some(v));
    if Tagged(key, Some(v)) in tagged {
      var k :| 0 <= k < |tagged| && tagged[k] == Tagged(key, Some(v));
      assert tagged[k] == ClientsOf(mdts[k]);
      assert OfMdt(mdts[k], key);
    }
    if HasClients(mdts, key, v) {
      var k :| 0 <= k < |mdts| && OfMdt(mdts[k], key) && mdts[k].connectedClients == Some(v);
      assert tagged[k] == ClientsOf(mdts[k]);
      assert tagged[k] == Tagged(key, Some(v));
    }
  }

  lemma EvictionsTagged(mdts: seq<MdtMetric>, key: Labels, v: real)
    ensures Some(v) in OfKey(Tag(mdts, EvictionsOf), key) <==> HasEvictions(mdts, key, v)
  {
    var tagged := Tag(mdts, EvictionsOf);
    OfKeyMembers(tagged, key, Some(v));
    if Tagged(key, Some(v)) in tagged {
      var k :| 0 <= k < |tagged| && tagged[k] == Tagged(key, Some(v));
      assert tagged[k] == EvictionsOf(mdts[k]);
      assert OfMdt(mdts[k], key);
    }
    if HasEvictions(mdts, key, v) {
      var k :| 0 <= k < |mdts| && OfMdt(mdts[k], key) && mdts[k].clientEvictions == Some(v);
      assert tagged[k] == EvictionsOf(mdts[k]);
      assert tagged[k] == Tagged(key, Some(v));
    }
  }

  /** The client count of a row: absent exactly without a figure, else one of the figures and the largest. */
  lemma ClientsMeaning(input: Input, now: real, r: seq<AggregateMetric>, i: nat, v: real)
    requires Aggregated(input, now, r) && i < |r|
    ensures HasClients(input.mdts, r[i].key, v) ==>
              r[i].connectedClients.Some? && v <= r[i].connectedClients.value
    ensures r[i].connectedClients.Some? ==> HasClients(input.mdts, r[i].key, r[i].connectedClients.value)
  {
    var values := OfKey(Tag(input.mdts, ClientsOf), r[i].key);
    assert r[i] == AggregateFor(input, now, r[i].key);
    MaxOptionalIsMax(values);
    ClientsTagged(input.mdts, r[i].key, v);
    if r[i].connectedClients.Some? {
      ClientsTagged(input.mdts, r[i].key, r[i].connectedClients.value);
    }
    if Some(v) in values {
      var k :| 0 <= k < |values| && values[k] == Some(v);
    }
  }

  /** The evictions of a row: absent exactly without a figure, else their sum. */
  lemma EvictionsMeaning(input: Input, now: real, r: seq<AggregateMetric>, i: nat)
    requires Aggregated(input, now, r) && i < |r|
    ensures r[i].clientEvictions.Some? <==> exists v :: HasEvictions(input.mdts, r[i].key, v)
    ensures r[i].clientEvictions.Some? ==> r[i].clientEvictions.value == Evictions(input.mdts, r[i].key)
  {
    var values := OfKey(Tag(input.mdts, EvictionsOf), r[i].key);
    assert r[i] == AggregateFor(input, now, r[i].key);
    SumIsShares(Tag(input.mdts, EvictionsOf), r[i].key);
    EvictionsShares(input.mdts, r[i].key);
    if !AllAbsent(values) {
      var k :| 0 <= k < |values| && values[k].Some?;
      assert Some(values[k].value) in values;
      EvictionsTagged(input.mdts, r[i].key, values[k].value);
    }
    if v :| HasEvictions(input.mdts, r[i].key, v) {
      EvictionsTagged(input.mdts, r[i].key, v);
    }
  }

  // ---------------------------------------------------------------- keys and age

  /** Some sample of the filesystem, of any of the four kinds, with that timestamp or lack of one. */
  ghost predicate HasStamp(input: Input, key: Labels, stamp: Option<real>) {
    || (exists k :: 0 <= k < |input.osts| && OfOst(input.osts[k], key) && input.osts[k].sampleTimestamp == stamp)
    || (exists k :: 0 <= k < |input.ostOperations| && OfOstOperation(input.ostOperations[k], key)
                    && input.ostOperations[k].sampleTimestamp == stamp)
    || (exists k :: 0 <= k < |input.mdts| && OfMdt(input.mdts[k], key) && input.mdts[k].sampleTimestamp == stamp)
    || (exists k :: 0 <= k < |input.mdtOperations| && OfMdtOperation(input.mdtOperations[k], key)
                    && input.mdtOperations[k].sampleTimestamp == stamp)
  }

  lemma StampsOfOsts(m: seq<OstMetric>, key: Labels, stamp: Option<real>)
    ensures Tagged(key, stamp) in Tag(m, OstStamp)
       <==> exists k :: 0 <= k < |m| && OfOst(m[k], key) && m[k].sampleTimestamp == stamp
  {
    var t := Tag(m, OstStamp);
    if Tagged(key, stamp) in t {
      var k :| 0 <= k < |t| && t[k] == Tagged(key, stamp);
      assert t[k] == OstStamp(m[k]);
      assert OfOst(m[k], key);
    }
    if k :| 0 <= k < |m| && OfOst(m[k], key) && m[k].sampleTimestamp == stamp {
      assert t[k] == OstStamp(m[k]);
      assert t[k] == Tagged(key, stamp);
    }
  }

  lemma StampsOfOstOperations(m: seq<OstOperationMetric>, key: Labels, stamp: Option<real>)
    ensures Tagged(key, stamp) in Tag(m, OstOperationStamp)
       <==> exists k :: 0 <= k < |m| && OfOstOperation(m[k], key) && m[k].sampleTimestamp == stamp
  {
    var t := Tag(m, OstOperationStamp);
    if Tagged(key, stamp) in t {
      var k :| 0 <= k < |t| && t[k] == Tagged(key, stamp);
      assert t[k] == OstOperationStamp(m[k]);
      assert OfOstOperation(m[k], key);
    }
    if k :| 0 <= k < |m| && OfOstOperation(m[k], key) && m[k].sampleTimestamp == stamp {
      assert t[k] == OstOperationStamp(m[k]);
      assert t[k] == Tagged(key, stamp);
    }
  }

  lemma StampsOfMdts(m: seq<MdtMetric>, key: Labels, stamp: Option<real>)
    ensures Tagged(key, stamp) in Tag(m, MdtStamp)
       <==> exists k :: 0 <= k < |m| && OfMdt(m[k], key) && m[k].sampleTimestamp == stamp
  {
    var t := Tag(m, MdtStamp);
    if Tagged(key, stamp) in t {
      var k :| 0 <= k < |t| && t[k] == Tagged(key, stamp);
      assert t[k] == MdtStamp(m[k]);
      assert OfMdt(m[k], key);
    }
    if k :| 0 <= k < |m| && OfMdt(m[k], key) && m[k].sampleTimestamp == stamp {
      assert t[k] == MdtStamp(m[k]);
      assert t[k] == Tagged(key, stamp);
    }
  }

  lemma StampsOfMdtOperations(m: seq<MdtOperationMetric>, key: Labels, stamp: Option<real>)
    ensures Tagged(key, stamp) in Tag(m, MdtOperationStamp)
       <==> exists k :: 0 <= k < |m| && OfMdtOperation(m[k], key) && m[k].sampleTimestamp == stamp
  {
    var t := Tag(m, MdtOperationStamp);
    if Tagged(key, stamp) in t {
      var k :| 0 <= k < |t| && t[k] == Tagged(key, stamp);
      assert t[k] == MdtOperationStamp(m[k]);
      assert OfMdtOperation(m[k], key);
    }
    if k :| 0 <= k < |m| && OfMdtOperation(m[k], key) && m[k].sampleTimestamp == stamp {
      assert t[k] == MdtOperationStamp(m[k]);
      assert t[k] == Tagged(key, stamp);
    }
  }

  lemma InFourParts(a: seq<Tagged>, b: seq<Tagged>, c: seq<Tagged>, d: seq<Tagged>, t: Tagged)
    ensures t in a + b + c + d <==> t in a || t in b || t in c || t in d
  {}

  lemma StampsMeaning(input: Input, key: Labels, stamp: Option<real>)
    ensures Tagged(key, stamp) in Stamps(input) <==> HasStamp(input, key, stamp)
  {
    StampsOfOsts(input.osts, key, stamp);
    StampsOfOstOperations(input.ostOperations, key, stamp);
    StampsOfMdts(input.mdts, key, stamp);
    StampsOfMdtOperations(input.mdtOperations, key, stamp);
    InFourParts(Tag(input.osts, OstStamp), Tag(input.ostOperations, OstOperationStamp),
                Tag(input.mdts, MdtStamp), Tag(input.mdtOperations, MdtOperationStamp), Tagged(key, stamp));
  }

  /** Which filesystems get a row: exactly those with a sample of any kind. */
  lemma KeysMeaning(input: Input, now: real, r: seq<AggregateMetric>, key: Labels)
    requires Aggregated(input, now, r)
    ensures (exists i :: 0 <= i < |r| && r[i].key == key) <==> exists stamp :: HasStamp(input, key, stamp)
  {
    HasSampleIff(input, key);
    if HasSample(input, key) {
      var t :| t in Stamps(input) && t.key == key;
      StampsMeaning(input, key, t.value);
      assert t == Tagged(key, t.value);
    }
    if stamp :| HasStamp(input, key, stamp) {
      StampsMeaning(input, key, stamp);
    }
  }

  /** The age of a row: absent exactly without a timestamp, else that of its oldest one, not below zero. */
  lemma AgeMeaning(input: Input, now: real, r: seq<AggregateMetric>, i: nat)
    requires Aggregated(input, now, r) && i < |r|
    ensures r[i].sampleMaxAge.None? ==> forall t :: !HasStamp(input, r[i].key, Some(t))
    ensures r[i].sampleMaxAge.Some? ==>
              exists oldest ::
                && HasStamp(input, r[i].key, Some(oldest)) && (forall t | HasStamp(input, r[i].key, Some(t)) :: oldest <= t)
                && r[i].sampleMaxAge.value == if now - oldest >= 0.0 then now - oldest else 0.0
  {
    var key := r[i].key;
    var values := OfKey(Stamps(input), key);
    var oldest := MinOptional(values);
    assert r[i] == AggregateFor(input, now, key);
    MinOptionalIsMin(values);
    forall t ensures HasStamp(input, key, Some(t)) <==> Some(t) in values {
      OfKeyMembers(Stamps(input), key, Some(t));
      StampsMeaning(input, key, Some(t));
    }
    forall t | HasStamp(input, key, Some(t)) ensures oldest.Some? && oldest.value <= t {
      var k :| 0 <= k < |values| && values[k] == Some(t);
    }
    if oldest.Some? {
      assert HasStamp(input, key, Some(oldest.value));
    }
  }

  // ---------------------------------------------------------------- the order of the rows

  /** The strings agree up to `k`, where `a` ends or has the smaller character. */
  predicate StringsPartAt(a: string, b: string, k: nat) {
    && k <= |a| && k < |b| && a[..k] == b[..k]
    && (k == |a| || a[k] < b[k])
  }

  lemma {:induction false} StringLessIff(a: string, b: string)
    ensures StringLess(a, b) <==> exists k :: 0 <= k <= |a| && StringsPartAt(a, b, k)
  {
    if b == "" {
    } else if a == "" {
      assert StringsPartAt(a, b, 0);
    } else {
      StringLessIff(a[1..], b[1..]);
      if a[0] < b[0] {
        assert StringsPartAt(a, b, 0);
      } else if StringLess(a, b) {
        var k :| 0 <= k <= |a[1..]| && StringsPartAt(a[1..], b[1..], k);
        assert a[..k + 1] == [a[0]] + a[1..][..k] && b[..k + 1] == [b[0]] + b[1..][..k];
        assert StringsPartAt(a, b, k + 1);
      } else if k :| 0 <= k <= |a| && StringsPartAt(a, b, k) {
        assert k > 0 ==> a[0] == a[..k][0] == b[..k][0] == b[0];
        assert k > 0 ==> a[1..][..k - 1] == a[..k][1..] && b[1..][..k - 1] == b[..k][1..];
        assert k > 0 ==> StringsPartAt(a[1..], b[1..], k - 1);
      }
    }
  }

  /** The keys agree up to `k`, where `a` ends or has the smaller label. */
  predicate KeysPartAt(a: Labels, b: Labels, k: nat) {
    && k <= |a| && k < |b| && a[..k] == b[..k]
    && (k == |a| || StringLess(a[k], b[k]))
  }

  /** Rows are ordered by their first differing label, that by its first differing character. */
  lemma {:induction false} KeyLessIff(a: Labels, b: Labels)
    ensures KeyLess(a, b) <==> exists k :: 0 <= k <= |a| && KeysPartAt(a, b, k)
  {
    if b == [] {
    } else if a == [] {
      assert KeysPartAt(a, b, 0);
    } else {
      KeyLessIff(a[1..], b[1..]);
      if StringLess(a[0], b[0]) {
        assert KeysPartAt(a, b, 0);
      } else if KeyLess(a, b) {
        var k :| 0 <= k <= |a[1..]| && KeysPartAt(a[1..], b[1..], k);
        assert a[..k + 1] == [a[0]] + a[1..][..k] && b[..k + 1] == [b[0]] + b[1..][..k];
        assert KeysPartAt(a, b, k + 1);
      } else if k :| 0 <= k <= |a| && KeysPartAt(a, b, k) {
        assert k > 0 ==> a[0] == a[..k][0] == b[..k][0] == b[0];
        assert k > 0 ==> a[1..][..k - 1] == a[..k][1..] && b[1..][..k - 1] == b[..k][1..];
        assert k > 0 ==> KeysPartAt(a[1..], b[1..], k - 1);
      }
    }
  }
}
