/**
  Derived per-filesystem metrics: a group-by over four sample lists, keyed by the capacity label
  tuple and emitted in sorted key order. Exact arithmetic.
 */
module LustreAggregation {
  import opened Wrappers
  import opened Numbers
  import opened Models

  // ---------------------------------------------------------------- the order of keys

  /** Lexicographic order of strings, a proper prefix first. */
  predicate StringLess(a: string, b: string) {
    if b == "" then false
    else if a == "" then true
    else a[0] < b[0] || (a[0] == b[0] && StringLess(a[1..], b[1..]))
  }

  /** Lexicographic order of label tuples. */
  predicate KeyLess(a: Labels, b: Labels) {
    if b == [] then false
    else if a == [] then true
    else StringLess(a[0], b[0]) || (a[0] == b[0] && KeyLess(a[1..], b[1..]))
  }

  lemma {:induction false} StringOrder(a: string, b: string, c: string)
    ensures !StringLess(a, a)
    ensures StringLess(a, b) && StringLess(b, c) ==> StringLess(a, c)
    ensures a == b || StringLess(a, b) || StringLess(b, a)
    decreases |a| + |b| + |c|
  {
    if a != "" && b != "" {
      StringOrder(a[1..], b[1..], if c == "" then "" else c[1..]);
      assert a == [a[0]] + a[1..] && b == [b[0]] + b[1..];
    } else if a != "" {
      StringOrder(a[1..], "", "");
    }
  }

  lemma {:induction false} KeyOrder(a: Labels, b: Labels, c: Labels)
    ensures !KeyLess(a, a)
    ensures KeyLess(a, b) && KeyLess(b, c) ==> KeyLess(a, c)
    ensures a == b || KeyLess(a, b) || KeyLess(b, a)
    decreases |a| + |b| + |c|
  {
    if a == [] {
    } else {
      StringOrder(a[0], a[0], a[0]);
      if b != [] {
        StringOrder(a[0], b[0], if c == [] then "" else c[0]);
        KeyOrder(a[1..], b[1..], if c == [] then [] else c[1..]);
        assert a == [a[0]] + a[1..] && b == [b[0]] + b[1..];
      } else {
        KeyOrder(a[1..], [], []);
      }
    }
  }

  ghost predicate Increasing(keys: seq<Labels>) {
    forall i, j | 0 <= i < j < |keys| :: KeyLess(keys[i], keys[j])
  }

  /** The sorted list of a set of keys is determined by the set. */
  lemma {:induction false} SortedUnique(xs: seq<Labels>, ys: seq<Labels>)
    requires Increasing(xs) && Increasing(ys) && forall k :: k in xs <==> k in ys
    ensures xs == ys
  {
    if xs == [] {
    } else {
      assert xs[0] in xs;
    }
    if ys == [] {
    } else {
      assert ys[0] in ys;
    }
    assert xs == [] <==> ys == [];
    if xs == [] {
    } else {
      FirstIsLeast(xs, ys);
      FirstIsLeast(ys, xs);
      KeyOrder(xs[0], ys[0], xs[0]);
      TailMembers(xs);
      TailMembers(ys);
      SortedUnique(xs[1..], ys[1..]);
    }
  }

  lemma FirstIsLeast(xs: seq<Labels>, ys: seq<Labels>)
    requires Increasing(ys) && xs != [] && ys != [] && forall k | k in xs :: k in ys
    ensures xs[0] == ys[0] || KeyLess(ys[0], xs[0])
  {
    assert xs[0] in xs;
    var i :| 0 <= i < |ys| && ys[i] == xs[0];
  }

  lemma TailMembers(xs: seq<Labels>)
    requires xs != [] && Increasing(xs)
    ensures Increasing(xs[1..]) && forall k :: k in xs[1..] <==> k in xs && k != xs[0]
  {
    assert xs == [xs[0]] + xs[1..];
    forall i | 1 <= i < |xs| ensures xs[i] != xs[0] {
      KeyOrder(xs[0], xs[0], xs[0]);
    }
  }

  /** Insertion into a sorted list. */
  method InsertKey(keys: seq<Labels>, key: Labels) returns (r: seq<Labels>)
    requires Increasing(keys) && key !in keys
    ensures Increasing(r) && forall k :: k in r <==> k in keys || k == key
  {
    var i := 0;
    while i < |keys| && KeyLess(keys[i], key)
      invariant 0 <= i <= |keys| && forall j | 0 <= j < i :: KeyLess(keys[j], key)
    {
      i := i + 1;
    }
    r := keys[..i] + [key] + keys[i..];
    assert keys == keys[..i] + keys[i..];
    forall j | i <= j < |keys| ensures KeyLess(key, keys[j]) {
      KeyOrder(key, keys[i], keys[j]);
      if i < j { assert KeyLess(keys[i], keys[j]); }
    }
  }

  /** `sorted(keys)`. */
  method SortKeys(keys: set<Labels>) returns (r: seq<Labels>)
    ensures Increasing(r) && forall k :: k in r <==> k in keys
  {
    r := [];
    var rest := keys;
    while rest != {}
      invariant rest <= keys && Increasing(r)
      invariant forall k :: k in r <==> k in keys && k !in rest
      decreases |rest|
    {
      var key :| key in rest;
      r := InsertKey(r, key);
      rest := rest - {key};
    }
  }

  // ---------------------------------------------------------------- values by key

  /** A figure of one sample, with the key of its filesystem. */
  datatype Tagged = Tagged(key: Labels, value: Option<real>)

  function Tag<T>(xs: seq<T>, f: T -> Tagged): seq<Tagged> {
    seq(|xs|, i requires 0 <= i < |xs| => f(xs[i]))
  }

  /** The figures of one filesystem, in order. */
  function OfKey(xs: seq<Tagged>, key: Labels): seq<Option<real>> {
    if xs == [] then []
    else OfKey(xs[..|xs| - 1], key) + if xs[|xs| - 1].key == key then [xs[|xs| - 1].value] else []
  }

  function ValuesOf(xs: seq<Tagged>): seq<Option<real>> {
    seq(|xs|, i requires 0 <= i < |xs| => xs[i].value)
  }

  /** The sum, absent figures as zero. */
  function SumOf(values: seq<Option<real>>): real {
    if values == [] then 0.0 else SumOf(values[..|values| - 1]) + values[|values| - 1].GetOr(0.0)
  }

  predicate AllAbsent(values: seq<Option<real>>) {
    forall i | 0 <= i < |values| :: values[i].None?
  }

  /** `_sum_optional`. */
  function SumOptional(values: seq<Option<real>>): Option<real> {
    if AllAbsent(values) then None else Some(SumOf(values))
  }

  /** `_max_optional`. */
  function MaxOptional(values: seq<Option<real>>): Option<real> {
    if values == [] then None
    else
      var last, rest := values[|values| - 1], MaxOptional(values[..|values| - 1]);
      if last.None? || (rest.Some? && rest.value >= last.value) then rest else last
  }

  function MinOptional(values: seq<Option<real>>): Option<real> {
    if values == [] then None
    else
      var last, rest := values[|values| - 1], MinOptional(values[..|values| - 1]);
      if last.None? || (rest.Some? && rest.value <= last.value) then rest else last
  }

  // ---------------------------------------------------------------- the aggregate of one filesystem

  datatype Input = Input(
    filesystems: seq<Filesystem>, osts: seq<OstMetric>, ostOperations: seq<OstOperationMetric>,
    mdts: seq<MdtMetric>, mdtOperations: seq<MdtOperationMetric>)

  function ClientsOf(m: MdtMetric): Tagged { Tagged(m.FilesystemKey(), m.connectedClients) }
  function EvictionsOf(m: MdtMetric): Tagged { Tagged(m.FilesystemKey(), m.clientEvictions) }
  function MetadataOpsOf(m: MdtOperationMetric): Tagged { Tagged(m.FilesystemKey(), Some(m.clientOps.GetOr(0.0))) }
  function DataOpsOf(m: OstMetric): Tagged {
    Tagged(m.FilesystemKey(), Some(m.clientReadOps.GetOr(0.0) + m.clientWriteOps.GetOr(0.0)))
  }
  function OstStamp(m: OstMetric): Tagged { Tagged(m.FilesystemKey(), m.sampleTimestamp) }
  function OstOperationStamp(m: OstOperationMetric): Tagged { Tagged(m.FilesystemKey(), m.sampleTimestamp) }
  function MdtStamp(m: MdtMetric): Tagged { Tagged(m.FilesystemKey(), m.sampleTimestamp) }
  function MdtOperationStamp(m: MdtOperationMetric): Tagged { Tagged(m.FilesystemKey(), m.sampleTimestamp) }

  /** The timestamp of every sample. */
  function Stamps(input: Input): seq<Tagged> {
    Tag(input.osts, OstStamp) + Tag(input.ostOperations, OstOperationStamp)
    + Tag(input.mdts, MdtStamp) + Tag(input.mdtOperations, MdtOperationStamp)
  }

  /** Some sample of the filesystem exists. */
  predicate HasSample(input: Input, key: Labels) {
    exists i :: 0 <= i < |Stamps(input)| && Stamps(input)[i].key == key
  }

  function AgeOf(now: real, oldest: Option<real>): Option<real> {
    if oldest.None? then None else Some(Larger(0.0, now - oldest.value))
  }

  function AggregateFor(input: Input, now: real, key: Labels): AggregateMetric {
    var metadataOps := SumOf(OfKey(Tag(input.mdtOperations, MetadataOpsOf), key));
    var dataOps := SumOf(OfKey(Tag(input.osts, DataOpsOf), key));
    AggregateMetric(
      key,
      MaxOptional(OfKey(Tag(input.mdts, ClientsOf), key)),
      SumOptional(OfKey(Tag(input.mdts, EvictionsOf), key)),
      Some(metadataOps / Larger(dataOps, 1.0)),
      AgeOf(now, MinOptional(OfKey(Stamps(input), key))))
  }

  /** One aggregate per filesystem with a sample, keys strictly increasing. */
  ghost predicate Aggregated(input: Input, now: real, r: seq<AggregateMetric>) {
    KeysRight(input, r) && RowsRight(input, now, r)
  }

  ghost predicate KeysRight(input: Input, r: seq<AggregateMetric>) {
    && (forall i, j | 0 <= i < j < |r| :: KeyLess(r[i].key, r[j].key))
    && (forall i | 0 <= i < |r| :: HasSample(input, r[i].key))
    && (forall key | HasSample(input, key) :: exists i :: 0 <= i < |r| && r[i].key == key)
  }

  ghost predicate RowsRight(input: Input, now: real, r: seq<AggregateMetric>) {
    forall i | 0 <= i < |r| :: r[i] == AggregateFor(input, now, r[i].key)
  }

  /** The keys of the result that the first keys of the sorted list account for. */
  ghost predicate Partial(input: Input, keys: seq<Labels>, r: seq<AggregateMetric>) {
    && (forall i, j | 0 <= i < j < |r| :: KeyLess(r[i].key, r[j].key))
    && (forall i | 0 <= i < |r| :: r[i].key in keys && HasSample(input, r[i].key))
    && (forall key | key in keys && HasSample(input, key) :: exists i :: 0 <= i < |r| && r[i].key == key)
  }

  lemma PartialStep(input: Input, keys: seq<Labels>, key: Labels, r: seq<AggregateMetric>, m: AggregateMetric)
    requires Partial(input, keys, r) && m.key == key && forall k | k in keys :: KeyLess(k, key)
    ensures HasSample(input, key) ==> Partial(input, keys + [key], r + [m])
    ensures !HasSample(input, key) ==> Partial(input, keys + [key], r)
  {
    var q := if HasSample(input, key) then r + [m] else r;
    forall other | other in keys + [key] && HasSample(input, other) ensures exists i :: 0 <= i < |q| && q[i].key == other {
      if other in keys {
        var i :| 0 <= i < |r| && r[i].key == other;
        assert q[i].key == other;
      } else {
        assert q[|r|].key == other;
      }
    }
  }

  /** `build_lustre_filesystem_aggregate_metrics`. */
  method BuildAggregateMetrics(input: Input, now: real) returns (r: seq<AggregateMetric>)
    ensures Aggregated(input, now, r)
  {
    var stamps := Stamps(input);
    var keys := (set f | f in input.filesystems :: f.CapacityLabelValues()) + (set t | t in stamps :: t.key);
    var sorted := SortKeys(keys);
    r := [];
    for k := 0 to |sorted|
      invariant Partial(input, sorted[..k], r) && RowsRight(input, now, r)
    {
      var key := sorted[k];
      assert sorted[..k + 1] == sorted[..k] + [key];
      PartialStep(input, sorted[..k], key, r, AggregateFor(input, now, key));
      HasSampleIff(input, key);
      if exists t | t in stamps :: t.key == key {
        r := r + [AggregateFor(input, now, key)];
      }
    }
    assert sorted[..|sorted|] == sorted;
    forall key | HasSample(input, key) ensures key in sorted {
      HasSampleIff(input, key);
    }
  }

  lemma HasSampleIff(input: Input, key: Labels)
    ensures HasSample(input, key) <==> exists t | t in Stamps(input) :: t.key == key
  {}

  /** The result is determined: two lists that satisfy the specification are equal. */
  lemma AggregatedUnique(input: Input, now: real, r: seq<AggregateMetric>, q: seq<AggregateMetric>)
    requires Aggregated(input, now, r) && Aggregated(input, now, q)
    ensures r == q
  {
    SameKeys(input, r, q);
    SameKeys(input, q, r);
    SortedUnique(KeysOf(r), KeysOf(q));
    SameRows(input, now, r, q);
  }

  lemma SameRows(input: Input, now: real, r: seq<AggregateMetric>, q: seq<AggregateMetric>)
    requires KeysOf(r) == KeysOf(q) && RowsRight(input, now, r) && RowsRight(input, now, q)
    ensures r == q
  {
    forall i | 0 <= i < |r| ensures |q| == |r| && r[i] == q[i] {
      assert KeysOf(r)[i] == r[i].key && KeysOf(q)[i] == q[i].key;
    }
    assert |KeysOf(r)| == |r| && |KeysOf(q)| == |q|;
  }

  function KeysOf(r: seq<AggregateMetric>): seq<Labels> {
    seq(|r|, i requires 0 <= i < |r| => r[i].key)
  }

  lemma SameKeys(input: Input, r: seq<AggregateMetric>, q: seq<AggregateMetric>)
    requires KeysRight(input, r) && KeysRight(input, q)
    ensures forall k | k in KeysOf(r) :: k in KeysOf(q)
  {
    forall k | k in KeysOf(r) ensures k in KeysOf(q) {
      var i :| 0 <= i < |r| && r[i].key == k;
      assert HasSample(input, k);
      var j :| 0 <= j < |q| && q[j].key == k;
      assert KeysOf(q)[j] == k;
    }
  }

  // ---------------------------------------------------------------- conservation

  ghost predicate Distinct(keys: seq<Labels>) {
    forall i, j | 0 <= i < j < |keys| :: keys[i] != keys[j]
  }

  function Total(sums: seq<real>): real {
    if sums == [] then 0.0 else Total(sums[..|sums| - 1]) + sums[|sums| - 1]
  }

  function GroupSums(xs: seq<Tagged>, keys: seq<Labels>): seq<real> {
    seq(|keys|, i requires 0 <= i < |keys| => SumOf(OfKey(xs, keys[i])))
  }

  lemma {:induction false} TotalChanged(s: seq<real>, t: seq<real>, p: nat, d: real)
    requires |s| == |t| && p < |s| && s[p] == t[p] + d
    requires forall i | 0 <= i < |s| && i != p :: s[i] == t[i]
    ensures Total(s) == Total(t) + d
  {
    var n := |s| - 1;
    if p == n {
      assert s[..n] == t[..n];
    } else {
      TotalChanged(s[..n], t[..n], p, d);
    }
  }

  lemma SumOneMore(xs: seq<Tagged>, keys: seq<Labels>)
    requires xs != [] && Distinct(keys) && xs[|xs| - 1].key in keys
    ensures Total(GroupSums(xs, keys)) == Total(GroupSums(xs[..|xs| - 1], keys)) + xs[|xs| - 1].value.GetOr(0.0)
  {
    var last := xs[|xs| - 1];
    var p :| 0 <= p < |keys| && keys[p] == last.key;
    forall i | 0 <= i < |keys|
      ensures GroupSums(xs, keys)[i]
           == GroupSums(xs[..|xs| - 1], keys)[i] + if i == p then last.value.GetOr(0.0) else 0.0
    {
      SumOfKeyOneMore(xs, keys[i]);
      assert i != p ==> keys[i] != keys[p];
    }
    TotalChanged(GroupSums(xs, keys), GroupSums(xs[..|xs| - 1], keys), p, last.value.GetOr(0.0));
  }

  lemma SumOfKeyOneMore(xs: seq<Tagged>, key: Labels)
    requires xs != []
    ensures SumOf(OfKey(xs, key)) == SumOf(OfKey(xs[..|xs| - 1], key))
              + if xs[|xs| - 1].key == key then xs[|xs| - 1].value.GetOr(0.0) else 0.0
  {
    var prev := OfKey(xs[..|xs| - 1], key);
    if xs[|xs| - 1].key == key {
      assert OfKey(xs, key)[..|prev|] == prev;
    } else {
      assert OfKey(xs, key) == prev;
    }
  }

  /** Grouping loses and duplicates nothing: the group sums add up to the sum of all figures. */
  lemma {:induction false} GroupingConserves(xs: seq<Tagged>, keys: seq<Labels>)
    requires Distinct(keys) && forall i | 0 <= i < |xs| :: xs[i].key in keys
    ensures Total(GroupSums(xs, keys)) == SumOf(ValuesOf(xs))
  {
    if xs == [] {
      EmptyGroups(GroupSums(xs, keys));
    } else {
      var n := |xs| - 1;
      GroupingConserves(xs[..n], keys);
      SumOneMore(xs, keys);
      assert ValuesOf(xs)[..n] == ValuesOf(xs[..n]);
    }
  }

  lemma {:induction false} EmptyGroups(sums: seq<real>)
    requires forall i | 0 <= i < |sums| :: sums[i] == 0.0
    ensures Total(sums) == 0.0
  {
    if sums == [] {
    } else {
      EmptyGroups(sums[..|sums| - 1]);
    }
  }

  function EvictionSum(r: seq<AggregateMetric>): real {
    if r == [] then 0.0 else EvictionSum(r[..|r| - 1]) + r[|r| - 1].clientEvictions.GetOr(0.0)
  }

  lemma {:induction false} EvictionSumIsTotal(r: seq<AggregateMetric>, sums: seq<real>)
    requires |r| == |sums| && forall i | 0 <= i < |r| :: r[i].clientEvictions.GetOr(0.0) == sums[i]
    ensures EvictionSum(r) == Total(sums)
  {
    if r == [] {
    } else {
      EvictionSumIsTotal(r[..|r| - 1], sums[..|r| - 1]);
    }
  }

  lemma EvictionsOfKey(input: Input, now: real, key: Labels)
    ensures AggregateFor(input, now, key).clientEvictions.GetOr(0.0)
         == SumOf(OfKey(Tag(input.mdts, EvictionsOf), key))
  {
    AbsentSum(OfKey(Tag(input.mdts, EvictionsOf), key));
  }

  lemma {:induction false} AbsentSum(values: seq<Option<real>>)
    ensures AllAbsent(values) ==> SumOf(values) == 0.0
  {
    if values == [] {
    } else {
      AbsentSum(values[..|values| - 1]);
    }
  }

  lemma MdtKeyHasSample(input: Input, i: nat)
    requires i < |input.mdts|
    ensures HasSample(input, input.mdts[i].FilesystemKey())
  {
    var k := |input.osts| + |input.ostOperations| + i;
    assert Stamps(input)[k] == MdtStamp(input.mdts[i]);
  }

  lemma ResultKeys(input: Input, now: real, r: seq<AggregateMetric>)
    requires Aggregated(input, now, r)
    ensures Distinct(KeysOf(r))
    ensures forall i | 0 <= i < |input.mdts| :: input.mdts[i].FilesystemKey() in KeysOf(r)
    ensures forall i | 0 <= i < |Stamps(input)| :: Stamps(input)[i].key in KeysOf(r)
  {
    forall i, j | 0 <= i < j < |r| ensures KeysOf(r)[i] != KeysOf(r)[j] {
      KeyOrder(r[i].key, r[i].key, r[i].key);
    }
    forall key | HasSample(input, key) ensures key in KeysOf(r) {
      var i :| 0 <= i < |r| && r[i].key == key;
      assert KeysOf(r)[i] == key;
    }
    forall i | 0 <= i < |input.mdts| ensures input.mdts[i].FilesystemKey() in KeysOf(r) {
      MdtKeyHasSample(input, i);
    }
  }

  /** Evictions over all outputs equal evictions over all inputs. */
  lemma EvictionsConserved(input: Input, now: real, r: seq<AggregateMetric>)
    requires Aggregated(input, now, r)
    ensures EvictionSum(r) == SumOf(ValuesOf(Tag(input.mdts, EvictionsOf)))
  {
    ResultKeys(input, now, r);
    var sums := GroupSums(Tag(input.mdts, EvictionsOf), KeysOf(r));
    forall i | 0 <= i < |r| ensures r[i].clientEvictions.GetOr(0.0) == sums[i] {
      EvictionsOfKey(input, now, r[i].key);
    }
    EvictionSumIsTotal(r, sums);
    GroupingConserves(Tag(input.mdts, EvictionsOf), KeysOf(r));
  }

  // ---------------------------------------------------------------- extremes

  /** What MaxOptional means; at most one value satisfies it. */
  ghost predicate IsMax(values: seq<Option<real>>, m: Option<real>) {
    && (m.None? ==> AllAbsent(values))
    && (m.Some? ==> m in values && forall i | 0 <= i < |values| && values[i].Some? :: values[i].value <= m.value)
  }

  ghost predicate IsMin(values: seq<Option<real>>, m: Option<real>) {
    && (m.None? ==> AllAbsent(values))
    && (m.Some? ==> m in values && forall i | 0 <= i < |values| && values[i].Some? :: m.value <= values[i].value)
  }

  lemma {:induction false} MaxOptionalIsMax(values: seq<Option<real>>)
    ensures IsMax(values, MaxOptional(values))
  {
    if values == [] {
    } else {
      MaxOptionalIsMax(values[..|values| - 1]);
      assert values == values[..|values| - 1] + [values[|values| - 1]];
    }
  }

  lemma {:induction false} MinOptionalIsMin(values: seq<Option<real>>)
    ensures IsMin(values, MinOptional(values))
  {
    if values == [] {
    } else {
      MinOptionalIsMin(values[..|values| - 1]);
      assert values == values[..|values| - 1] + [values[|values| - 1]];
    }
  }

  /** The figures of a key are those of its samples. */
  lemma {:induction false} OfKeyMembers(xs: seq<Tagged>, key: Labels, v: Option<real>)
    ensures v in OfKey(xs, key) <==> Tagged(key, v) in xs
  {
    if xs == [] {
    } else {
      OfKeyMembers(xs[..|xs| - 1], key, v);
      assert xs == xs[..|xs| - 1] + [xs[|xs| - 1]];
    }
  }

  function ClientMaxima(r: seq<AggregateMetric>): seq<Option<real>> {
    seq(|r|, i requires 0 <= i < |r| => r[i].connectedClients)
  }

  function Ages(r: seq<AggregateMetric>): seq<Option<real>> {
    seq(|r|, i requires 0 <= i < |r| => r[i].sampleMaxAge)
  }

  /** The largest client count over the outputs is the largest over all MDT samples. */
  lemma ClientMaximumPreserved(input: Input, now: real, r: seq<AggregateMetric>)
    requires Aggregated(input, now, r)
    ensures MaxOptional(ClientMaxima(r)) == MaxOptional(ValuesOf(Tag(input.mdts, ClientsOf)))
  {
    var xs, keys := Tag(input.mdts, ClientsOf), KeysOf(r);
    ResultKeys(input, now, r);
    var groups := Groups(xs, keys);
    forall k | 0 <= k < |keys| ensures IsGroup(xs, keys[k], groups[k]) && IsMax(groups[k], ClientMaxima(r)[k]) {
      GroupOfKey(xs, keys[k]);
      MaxOptionalIsMax(groups[k]);
    }
    MaxOptionalIsMax(ClientMaxima(r));
    MaxOfGroups(xs, keys, groups, ClientMaxima(r), MaxOptional(ClientMaxima(r)));
    MaxOptionalIsMax(ValuesOf(xs));
    MaxUnique(ValuesOf(xs), MaxOptional(ClientMaxima(r)), MaxOptional(ValuesOf(xs)));
  }

  /** The group holds exactly the figures of the key. */
  ghost predicate IsGroup(xs: seq<Tagged>, key: Labels, group: seq<Option<real>>) {
    forall v :: v in group <==> Tagged(key, v) in xs
  }

  function Groups(xs: seq<Tagged>, keys: seq<Labels>): seq<seq<Option<real>>> {
    seq(|keys|, k requires 0 <= k < |keys| => OfKey(xs, keys[k]))
  }

  lemma GroupOfKey(xs: seq<Tagged>, key: Labels)
    ensures IsGroup(xs, key, OfKey(xs, key))
  {}

  /** The maximum of group maxima is the maximum. */
  lemma MaxOfGroups(xs: seq<Tagged>, keys: seq<Labels>, groups: seq<seq<Option<real>>>, maxima: seq<Option<real>>,
                    m: Option<real>)
    requires |maxima| == |keys| == |groups| && IsMax(maxima, m)
    requires forall k | 0 <= k < |keys| :: IsGroup(xs, keys[k], groups[k]) && IsMax(groups[k], maxima[k])
    requires forall i | 0 <= i < |xs| :: xs[i].key in keys
    ensures IsMax(ValuesOf(xs), m)
  {
    forall i | 0 <= i < |xs| && xs[i].value.Some? ensures m.Some? && xs[i].value.value <= m.value {
      var k := GroupHolding(xs, keys, groups, i);
    }
    if m.Some? {
      var k :| 0 <= k < |maxima| && maxima[k] == m;
      AttainedInGroup(xs, keys[k], groups[k], m);
    }
  }

  lemma MinOfGroups(xs: seq<Tagged>, keys: seq<Labels>, groups: seq<seq<Option<real>>>, minima: seq<Option<real>>,
                    m: Option<real>)
    requires |minima| == |keys| == |groups| && IsMin(minima, m)
    requires forall k | 0 <= k < |keys| :: IsGroup(xs, keys[k], groups[k]) && IsMin(groups[k], minima[k])
    requires forall i | 0 <= i < |xs| :: xs[i].key in keys
    ensures IsMin(ValuesOf(xs), m)
  {
    forall i | 0 <= i < |xs| && xs[i].value.Some? ensures m.Some? && m.value <= xs[i].value.value {
      var k := GroupHolding(xs, keys, groups, i);
    }
    if m.Some? {
      var k :| 0 <= k < |minima| && minima[k] == m;
      AttainedInGroup(xs, keys[k], groups[k], m);
    }
  }

  lemma GroupHolding(xs: seq<Tagged>, keys: seq<Labels>, groups: seq<seq<Option<real>>>, i: nat) returns (k: nat)
    requires |keys| == |groups| && i < |xs| && xs[i].key in keys
    requires forall k | 0 <= k < |keys| :: IsGroup(xs, keys[k], groups[k])
    ensures k < |keys| && xs[i].value in groups[k]
  {
    k :| 0 <= k < |keys| && keys[k] == xs[i].key;
    assert IsGroup(xs, keys[k], groups[k]);
    assert xs[i] == Tagged(keys[k], xs[i].value) && xs[i] in xs;
  }

  lemma AttainedInGroup(xs: seq<Tagged>, key: Labels, group: seq<Option<real>>, m: Option<real>)
    requires IsGroup(xs, key, group) && m in group
    ensures m in ValuesOf(xs)
  {
    var i :| 0 <= i < |xs| && xs[i] == Tagged(key, m);
    assert ValuesOf(xs)[i] == m;
  }

  lemma MaxUnique(values: seq<Option<real>>, a: Option<real>, b: Option<real>)
    requires IsMax(values, a) && IsMax(values, b)
    ensures a == b
  {}

  lemma MinUnique(values: seq<Option<real>>, a: Option<real>, b: Option<real>)
    requires IsMin(values, a) && IsMin(values, b)
    ensures a == b
  {}

  /** The largest age over the outputs is the age of the oldest timestamp of all samples. */
  lemma OldestAgePreserved(input: Input, now: real, r: seq<AggregateMetric>)
    requires Aggregated(input, now, r)
    ensures MaxOptional(Ages(r)) == AgeOf(now, MinOptional(ValuesOf(Stamps(input))))
  {
    var xs, keys := Stamps(input), KeysOf(r);
    ResultKeys(input, now, r);
    var groups := Groups(xs, keys);
    var minima := seq(|r|, k requires 0 <= k < |r| => MinOptional(OfKey(xs, r[k].key)));
    forall k | 0 <= k < |keys| ensures IsGroup(xs, keys[k], groups[k]) && IsMin(groups[k], minima[k]) {
      GroupOfKey(xs, keys[k]);
      MinOptionalIsMin(groups[k]);
    }
    MinOptionalIsMin(minima);
    MinOfGroups(xs, keys, groups, minima, MinOptional(minima));
    MinOptionalIsMin(ValuesOf(xs));
    MinUnique(ValuesOf(xs), MinOptional(minima), MinOptional(ValuesOf(xs)));
    AgeOfMinimum(now, minima, Ages(r));
  }

  /** Age reverses order: the largest age belongs to the smallest timestamp. */
  lemma {:induction false} AgeOfMinimum(now: real, minima: seq<Option<real>>, ages: seq<Option<real>>)
    requires |ages| == |minima| && forall k | 0 <= k < |ages| :: ages[k] == AgeOf(now, minima[k])
    ensures MaxOptional(ages) == AgeOf(now, MinOptional(minima))
  {
    if ages == [] {
    } else {
      AgeOfMinimum(now, minima[..|ages| - 1], ages[..|ages| - 1]);
    }
  }

  // ---------------------------------------------------------------- order of the samples

  lemma {:induction false} TagMultiset<T>(xs: seq<T>, ys: seq<T>, f: T -> Tagged)
    requires multiset(xs) == multiset(ys)
    ensures multiset(Tag(xs, f)) == multiset(Tag(ys, f))
    decreases |xs|
  {
    if xs == [] {
      assert |ys| == |multiset(ys)|;
    } else {
      var n := |xs| - 1;
      var k := RemoveSame(xs, ys);
      TagMultiset(xs[..n], ys[..k] + ys[k + 1..], f);
      TagTakenOut(xs, n, f);
      assert xs[..n] + xs[n + 1..] == xs[..n];
      TagTakenOut(ys, k, f);
    }
  }

  lemma TagTakenOut<T>(ys: seq<T>, k: nat, f: T -> Tagged)
    requires k < |ys|
    ensures multiset(Tag(ys, f)) == multiset(Tag(ys[..k] + ys[k + 1..], f)) + multiset{f(ys[k])}
  {
    var a, b := Tag(ys[..k], f), Tag(ys[k + 1..], f);
    assert Tag(ys[..k] + ys[k + 1..], f) == a + b;
    assert Tag(ys, f) == a + [f(ys[k])] + b;
  }

  /** The last element of `xs` found and removed in a permutation of it. */
  lemma RemoveSame<T>(xs: seq<T>, ys: seq<T>) returns (k: nat)
    requires xs != [] && multiset(xs) == multiset(ys)
    ensures k < |ys| && ys[k] == xs[|xs| - 1]
    ensures multiset(xs[..|xs| - 1]) == multiset(ys[..k] + ys[k + 1..])
  {
    var n := |xs| - 1;
    assert xs[n] in multiset(xs);
    assert xs[n] in ys;
    k :| 0 <= k < |ys| && ys[k] == xs[n];
    assert xs == xs[..n] + [xs[n]];
    assert multiset(xs) == multiset(xs[..n]) + multiset{xs[n]};
    TakenOut(ys, k);
    assert multiset(xs[..n]) == multiset(xs) - multiset{xs[n]};
    assert multiset(ys[..k] + ys[k + 1..]) == multiset(ys) - multiset{xs[n]};
  }

  lemma TakenOut<T>(ys: seq<T>, k: nat)
    requires k < |ys|
    ensures multiset(ys) == multiset(ys[..k] + ys[k + 1..]) + multiset{ys[k]}
  {
    assert ys == ys[..k] + [ys[k]] + ys[k + 1..];
  }

  /** What one sample adds to the sum of a key. */
  function Share(t: Tagged, key: Labels): real {
    if t.key == key then t.value.GetOr(0.0) else 0.0
  }

  function Shares(xs: seq<Tagged>, key: Labels): real {
    if xs == [] then 0.0 else Shares(xs[..|xs| - 1], key) + Share(xs[|xs| - 1], key)
  }

  lemma {:induction false} SumIsShares(xs: seq<Tagged>, key: Labels)
    ensures SumOf(OfKey(xs, key)) == Shares(xs, key)
  {
    if xs == [] {
    } else {
      SumIsShares(xs[..|xs| - 1], key);
      SumOfKeyOneMore(xs, key);
    }
  }

  lemma {:induction false} SharesConcat(xs: seq<Tagged>, ys: seq<Tagged>, key: Labels)
    ensures Shares(xs + ys, key) == Shares(xs, key) + Shares(ys, key)
  {
    if ys == [] {
      assert xs + ys == xs;
    } else {
      SharesConcat(xs, ys[..|ys| - 1], key);
      assert (xs + ys)[..|xs + ys| - 1] == xs + ys[..|ys| - 1];
    }
  }

  lemma SharesTakenOut(a: seq<Tagged>, x: Tagged, b: seq<Tagged>, key: Labels)
    ensures Shares(a + [x] + b, key) == Shares(a + b, key) + Share(x, key)
  {
    SharesConcat(a, b, key);
    SharesConcat(a + [x], b, key);
    assert (a + [x])[..|a|] == a;
  }

  lemma {:induction false} SharesPermuted(xs: seq<Tagged>, ys: seq<Tagged>, key: Labels)
    requires multiset(xs) == multiset(ys)
    ensures Shares(xs, key) == Shares(ys, key)
    decreases |xs|
  {
    if xs == [] {
      assert |ys| == |multiset(ys)|;
    } else {
      var k := RemoveSame(xs, ys);
      SharesPermuted(xs[..|xs| - 1], ys[..k] + ys[k + 1..], key);
      SharesTakenOut(ys[..k], ys[k], ys[k + 1..], key);
      assert ys == ys[..k] + [ys[k]] + ys[k + 1..];
    }
  }

  lemma SumOfKeyPermuted(xs: seq<Tagged>, ys: seq<Tagged>, key: Labels)
    requires multiset(xs) == multiset(ys)
    ensures SumOf(OfKey(xs, key)) == SumOf(OfKey(ys, key))
  {
    SumIsShares(xs, key);
    SumIsShares(ys, key);
    SharesPermuted(xs, ys, key);
  }

  /** Extremes and absence depend only on membership. */
  lemma ExtremesPermuted(xs: seq<Tagged>, ys: seq<Tagged>, key: Labels)
    requires multiset(xs) == multiset(ys)
    ensures MaxOptional(OfKey(xs, key)) == MaxOptional(OfKey(ys, key))
    ensures MinOptional(OfKey(xs, key)) == MinOptional(OfKey(ys, key))
    ensures AllAbsent(OfKey(xs, key)) <==> AllAbsent(OfKey(ys, key))
  {
    var a, b := OfKey(xs, key), OfKey(ys, key);
    assert forall t :: t in xs <==> t in multiset(xs);
    assert forall t :: t in ys <==> t in multiset(ys);
    forall v ensures v in a <==> v in b {
      OfKeyMembers(xs, key, v);
      OfKeyMembers(ys, key, v);
    }
    MaxOptionalIsMax(a);
    MaxOptionalIsMax(b);
    MinOptionalIsMin(a);
    MinOptionalIsMin(b);
    forall i | 0 <= i < |a| ensures a[i] in b {}
    forall i | 0 <= i < |b| ensures b[i] in a {}
    MembersBound(a, b);
    MembersBound(b, a);
  }

  lemma MembersBound(a: seq<Option<real>>, b: seq<Option<real>>)
    requires forall v | v in a :: v in b
    ensures AllAbsent(b) ==> AllAbsent(a)
    ensures MaxOptional(a).Some? ==> MaxOptional(b).Some? && MaxOptional(a).value <= MaxOptional(b).value
    ensures MinOptional(a).Some? ==> MinOptional(b).Some? && MinOptional(b).value <= MinOptional(a).value
  {
    MaxOptionalIsMax(a);
    MaxOptionalIsMax(b);
    MinOptionalIsMin(a);
    MinOptionalIsMin(b);
    forall i | 0 <= i < |a| ensures exists j :: 0 <= j < |b| && b[j] == a[i] {
      assert a[i] in b;
    }
  }

  /** The same samples in any order. */
  ghost predicate Permuted(x: Input, y: Input) {
    && multiset(x.osts) == multiset(y.osts) && multiset(x.ostOperations) == multiset(y.ostOperations)
    && multiset(x.mdts) == multiset(y.mdts) && multiset(x.mdtOperations) == multiset(y.mdtOperations)
  }

  lemma StampsPermuted(x: Input, y: Input)
    requires Permuted(x, y)
    ensures multiset(Stamps(x)) == multiset(Stamps(y))
  {
    TagMultiset(x.osts, y.osts, OstStamp);
    TagMultiset(x.ostOperations, y.ostOperations, OstOperationStamp);
    TagMultiset(x.mdts, y.mdts, MdtStamp);
    TagMultiset(x.mdtOperations, y.mdtOperations, MdtOperationStamp);
  }

  lemma AggregatePermuted(x: Input, y: Input, now: real, key: Labels)
    requires Permuted(x, y)
    ensures AggregateFor(x, now, key) == AggregateFor(y, now, key)
  {
    StampsPermuted(x, y);
    ExtremesPermuted(Stamps(x), Stamps(y), key);
    TagMultiset(x.mdtOperations, y.mdtOperations, MetadataOpsOf);
    SumOfKeyPermuted(Tag(x.mdtOperations, MetadataOpsOf), Tag(y.mdtOperations, MetadataOpsOf), key);
    TagMultiset(x.osts, y.osts, DataOpsOf);
    SumOfKeyPermuted(Tag(x.osts, DataOpsOf), Tag(y.osts, DataOpsOf), key);
    TagMultiset(x.mdts, y.mdts, ClientsOf);
    ExtremesPermuted(Tag(x.mdts, ClientsOf), Tag(y.mdts, ClientsOf), key);
    TagMultiset(x.mdts, y.mdts, EvictionsOf);
    ExtremesPermuted(Tag(x.mdts, EvictionsOf), Tag(y.mdts, EvictionsOf), key);
    SumOfKeyPermuted(Tag(x.mdts, EvictionsOf), Tag(y.mdts, EvictionsOf), key);
  }

  /** The order of the samples, and the filesystems without samples, do not matter. */
  lemma OrderDoesNotMatter(x: Input, y: Input, now: real, r: seq<AggregateMetric>, q: seq<AggregateMetric>)
    requires Permuted(x, y) && Aggregated(x, now, r) && Aggregated(y, now, q)
    ensures r == q
  {
    StampsPermuted(x, y);
    assert forall t :: t in Stamps(x) <==> t in multiset(Stamps(x));
    assert forall t :: t in Stamps(y) <==> t in multiset(Stamps(y));
    forall key ensures HasSample(x, key) <==> HasSample(y, key) {
      HasSampleIff(x, key);
      HasSampleIff(y, key);
    }
    forall i | 0 <= i < |q| ensures q[i] == AggregateFor(x, now, q[i].key) {
      AggregatePermuted(x, y, now, q[i].key);
    }
    AggregatedUnique(x, now, r, q);
  }
}
