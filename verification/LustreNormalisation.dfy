/**
  Azure Monitor responses to exporter samples: one pass over metrics and time series fills four
  tables of dictionaries, one result per key is built from each. The tables are specified by the
  sequence of usable samples in response order.
 */
module LustreNormalisation {
  import opened Wrappers
  import opened Numbers
  import opened Models

  const AGGREGATE_DIMENSION_VALUE := "all"
  const AZURE_MONITOR_METRIC_NAMES_PER_REQUEST: int := 20

  /** The metric names of LUSTRE_METRICS. */
  datatype MetricName =
    | OstBytesAvailable | OstBytesUsed | OstBytesTotal | OstConnectedClients
    | ClientReadOps | ClientReadThroughput | ClientWriteOps | ClientWriteThroughput
    | OstClientLatency | OstClientOps
    | MdtBytesAvailable | MdtBytesUsed | MdtBytesTotal | MdtConnectedClients
    | MdtFilesFree | MdtFilesUsed | MdtFilesTotal | HsmActionErrors | HsmCurrentRequests
    | MdtClientLatency | MdtClientOps
    | LustreClientEvictions

  const OST_SIMPLE_METRICS: seq<MetricName> := [
    OstBytesAvailable, OstBytesUsed, OstBytesTotal, OstConnectedClients,
    ClientReadOps, ClientReadThroughput, ClientWriteOps, ClientWriteThroughput]
  const OST_OPERATION_METRICS: seq<MetricName> := [OstClientLatency, OstClientOps]
  const MDT_SIMPLE_METRICS: seq<MetricName> := [
    MdtBytesAvailable, MdtBytesUsed, MdtBytesTotal, MdtConnectedClients,
    MdtFilesFree, MdtFilesUsed, MdtFilesTotal, HsmActionErrors, HsmCurrentRequests]
  const MDT_OPERATION_METRICS: seq<MetricName> := [MdtClientLatency, MdtClientOps]
  const MDT_TOTAL_METRICS: seq<MetricName> := [LustreClientEvictions]
  const LUSTRE_SIMPLE_AVERAGE_METRICS := OST_SIMPLE_METRICS + MDT_SIMPLE_METRICS
  const LUSTRE_METRICS :=
    OST_SIMPLE_METRICS + OST_OPERATION_METRICS + MDT_SIMPLE_METRICS + MDT_OPERATION_METRICS + MDT_TOTAL_METRICS

  // ---------------------------------------------------------------- responses

  datatype Point = Point(average: Option<real>, total: Option<real>, maximum: Option<real>, timestamp: Option<real>)
  datatype TimeSeries = TimeSeries(metadata: seq<(string, Option<string>)>, data: seq<Point>)
  /** `name` is None for a metric that is not collected. */
  datatype Metric = Metric(name: Option<MetricName>, series: seq<TimeSeries>)

  datatype Field = Average | Total | Maximum

  function FieldOf(point: Point, field: Field): Option<real> {
    match field
    case Average => point.average
    case Total => point.total
    case Maximum => point.maximum
  }

  /** The first field with a value. */
  function FirstField(point: Point, fields: seq<Field>): Option<real> {
    if fields == [] then None
    else if FieldOf(point, fields[0]).Some? then FieldOf(point, fields[0])
    else FirstField(point, fields[1..])
  }

  /** `_latest_value`: scans the points backwards. */
  function LatestValue(data: seq<Point>, fields: seq<Field>): Option<(real, Option<real>)> {
    if data == [] then None
    else
      var last := data[|data| - 1];
      match FirstField(last, fields)
      case Some(value) => Some((value, last.timestamp))
      case None => LatestValue(data[..|data| - 1], fields)
  }

  /** Evictions are interval totals, everything else is an average. */
  function FieldsFor(metric: MetricName): seq<Field> {
    if metric.LustreClientEvictions? then [Total, Maximum, Average] else [Average]
  }

  /** ASCII only. */
  function LowerChar(c: char): char {
    if 'A' <= c <= 'Z' then ((c as int) + 32) as char else c
  }

  function Lower(s: string): string {
    if s == "" then "" else [LowerChar(s[0])] + Lower(s[1..])
  }

  predicate Blank(s: string) {
    forall i | 0 <= i < |s| :: 9 <= s[i] as int <= 13 || 28 <= s[i] as int <= 32
  }

  /** `_dimension_value`: the first non-blank value of that name, letter case aside. */
  function DimensionValue(metadata: seq<(string, Option<string>)>, name: string): Option<string> {
    if metadata == [] then None
    else if Lower(metadata[0].0) == name && metadata[0].1.Some? && !Blank(metadata[0].1.value) then metadata[0].1
    else DimensionValue(metadata[1..], name)
  }

  /** `_dimension_value_or_aggregate`. */
  function DimensionOrAggregate(series: TimeSeries, name: string, aggregateWhenMissing: bool): Option<string> {
    if series.metadata == [] then Some(AGGREGATE_DIMENSION_VALUE)
    else
      match DimensionValue(series.metadata, name)
      case Some(value) => Some(value)
      case None => if aggregateWhenMissing then Some(AGGREGATE_DIMENSION_VALUE) else None
  }

  // ---------------------------------------------------------------- usable samples

  datatype Kind = Ost | OstOperation | Mdt | MdtOperation

  /** The table a metric goes to. */
  function KindOf(metric: MetricName): Kind {
    if metric in OST_OPERATION_METRICS then OstOperation
    else if metric in OST_SIMPLE_METRICS then Ost
    else if metric in MDT_OPERATION_METRICS then MdtOperation
    else Mdt
  }

  /** [number] or [number, operation]. */
  type Key = seq<string>

  datatype Sample = Sample(kind: Kind, key: Key, metric: MetricName, value: real, stamp: Option<real>)

  /** The key of a series in the table of its metric, or None when it has no target number. */
  function KeyOf(kind: Kind, series: TimeSeries): Option<Key> {
    var target := if kind.Ost? || kind.OstOperation? then "ostnum" else "mdtnum";
    var perOperation := kind.OstOperation? || kind.MdtOperation?;
    match DimensionOrAggregate(series, target, perOperation)
    case None => None
    case Some(number) =>
      if perOperation then Some([number, DimensionValue(series.metadata, "operation").GetOr(AGGREGATE_DIMENSION_VALUE)])
      else Some([number])
  }

  /** What one series contributes: nothing without a value or without a target number. */
  function SampleOf(metric: MetricName, series: TimeSeries): Option<Sample> {
    match LatestValue(series.data, FieldsFor(metric))
    case None => None
    case Some((value, stamp)) =>
      match KeyOf(KindOf(metric), series)
      case None => None
      case Some(key) => Some(Sample(KindOf(metric), key, metric, value, stamp))
  }

  function SeriesSamples(metric: MetricName, series: seq<TimeSeries>): seq<Sample> {
    if series == [] then []
    else
      var n := |series| - 1;
      SeriesSamples(metric, series[..n])
      + match SampleOf(metric, series[n]) case Some(sample) => [sample] case None => []
  }

  function EntrySamples(entry: Metric): seq<Sample> {
    if entry.name.Some? then SeriesSamples(entry.name.value, entry.series) else []
  }

  /** The usable samples of a response, in response order. */
  function Samples(metrics: seq<Metric>): seq<Sample> {
    if metrics == [] then []
    else
      var last := metrics[|metrics| - 1];
      Samples(metrics[..|metrics| - 1]) + EntrySamples(last)
  }

  // ---------------------------------------------------------------- tables

  /** A dictionary of value dictionaries with its keys in insertion order, and one of timestamps. */
  datatype Table = Table(order: seq<Key>, values: map<Key, map<MetricName, real>>, stamps: map<Key, real>)

  const NO_ENTRIES := Table([], map[], map[])

  /** `setdefault(key, {})[metric] = value` and the running maximum of the timestamps. */
  function Record(t: Table, sample: Sample): Table {
    var entry := if sample.key in t.values then t.values[sample.key] else map[];
    Table(
      if sample.key in t.values then t.order else t.order + [sample.key],
      t.values[sample.key := entry[sample.metric := sample.value]],
      match sample.stamp
      case None => t.stamps
      case Some(stamp) =>
        t.stamps[sample.key := Larger(stamp, if sample.key in t.stamps then t.stamps[sample.key] else 0.0)])
  }

  function TableOf(kind: Kind, samples: seq<Sample>): Table {
    if samples == [] then NO_ENTRIES
    else
      var last, t := samples[|samples| - 1], TableOf(kind, samples[..|samples| - 1]);
      if last.kind == kind then Record(t, last) else t
  }

  function Get<K, V>(m: map<K, V>, k: K): Option<V> { if k in m then Some(m[k]) else None }

  function GetValue(t: Table, key: Key, metric: MetricName): Option<real> {
    if key in t.values then Get(t.values[key], metric) else None
  }

  // ---------------------------------------------------------------- declarative specification

  /** The value of the last sample of that key and metric. */
  function LastValue(samples: seq<Sample>, kind: Kind, key: Key, metric: MetricName): Option<real> {
    if samples == [] then None
    else
      var last := samples[|samples| - 1];
      if last.kind == kind && last.key == key && last.metric == metric then Some(last.value)
      else LastValue(samples[..|samples| - 1], kind, key, metric)
  }

  /** The largest timestamp of the key's samples, none below zero. */
  function MaxStamp(samples: seq<Sample>, kind: Kind, key: Key): Option<real> {
    if samples == [] then None
    else
      var last, rest := samples[|samples| - 1], MaxStamp(samples[..|samples| - 1], kind, key);
      if last.kind == kind && last.key == key && last.stamp.Some?
      then Some(Larger(last.stamp.value, rest.GetOr(0.0))) else rest
  }

  /** The keys in order of first appearance. */
  function KeyOrder(samples: seq<Sample>, kind: Kind): seq<Key> {
    if samples == [] then []
    else
      var last, order := samples[|samples| - 1], KeyOrder(samples[..|samples| - 1], kind);
      if last.kind == kind && last.key !in order then order + [last.key] else order
  }

  lemma {:induction false} TableKeys(kind: Kind, samples: seq<Sample>)
    ensures TableOf(kind, samples).order == KeyOrder(samples, kind)
    ensures forall key :: key in TableOf(kind, samples).values <==> key in KeyOrder(samples, kind)
  {
    if samples == [] {
    } else {
      TableKeys(kind, samples[..|samples| - 1]);
    }
  }

  lemma {:induction false} TableValues(kind: Kind, samples: seq<Sample>, key: Key, metric: MetricName)
    ensures GetValue(TableOf(kind, samples), key, metric) == LastValue(samples, kind, key, metric)
  {
    if samples == [] {
    } else {
      TableValues(kind, samples[..|samples| - 1], key, metric);
    }
  }

  lemma {:induction false} TableStamps(kind: Kind, samples: seq<Sample>, key: Key)
    ensures Get(TableOf(kind, samples).stamps, key) == MaxStamp(samples, kind, key)
  {
    if samples == [] {
    } else {
      TableStamps(kind, samples[..|samples| - 1], key);
    }
  }

  ghost predicate HasKey(samples: seq<Sample>, kind: Kind, key: Key) {
    exists i :: 0 <= i < |samples| && samples[i].kind == kind && samples[i].key == key
  }

  /** Every key with a usable sample is listed once, and no other. */
  lemma {:induction false} KeysListedOnce(samples: seq<Sample>, kind: Kind)
    ensures forall i, j | 0 <= i < j < |KeyOrder(samples, kind)| ::
              KeyOrder(samples, kind)[i] != KeyOrder(samples, kind)[j]
    ensures forall key :: key in KeyOrder(samples, kind) <==> HasKey(samples, kind, key)
  {
    if samples == [] {
    } else {
      var n := |samples| - 1;
      KeysListedOnce(samples[..n], kind);
      forall key ensures HasKey(samples, kind, key) <==>
                         HasKey(samples[..n], kind, key) || (samples[n].kind == kind && samples[n].key == key)
      {
        if HasKey(samples[..n], kind, key) {
          var i :| 0 <= i < n && samples[..n][i].kind == kind && samples[..n][i].key == key;
          assert samples[i].kind == kind && samples[i].key == key;
        }
        if i :| 0 <= i < |samples| && samples[i].kind == kind && samples[i].key == key {
          if i < n { assert samples[..n][i].kind == kind && samples[..n][i].key == key; }
        }
      }
    }
  }

  predicate Matches(sample: Sample, kind: Kind, key: Key, metric: MetricName) {
    sample.kind == kind && sample.key == key && sample.metric == metric
  }

  /** Sample `i` matches, has the value, and no later sample matches. */
  ghost predicate LastAt(samples: seq<Sample>, i: nat, kind: Kind, key: Key, metric: MetricName, v: real) {
    && i < |samples| && Matches(samples[i], kind, key, metric) && samples[i].value == v
    && (forall j | i < j < |samples| :: !Matches(samples[j], kind, key, metric))
  }

  /** The value comes from a matching sample with no matching sample after it. */
  lemma {:induction false} LastValueIsLast(samples: seq<Sample>, kind: Kind, key: Key, metric: MetricName)
    ensures LastValue(samples, kind, key, metric).None? ==>
              forall i | 0 <= i < |samples| :: !Matches(samples[i], kind, key, metric)
    ensures LastValue(samples, kind, key, metric).Some? ==>
              exists i :: LastAt(samples, i, kind, key, metric, LastValue(samples, kind, key, metric).value)
  {
    if samples == [] {
    } else {
      var n := |samples| - 1;
      LastValueIsLast(samples[..n], kind, key, metric);
      if Matches(samples[n], kind, key, metric) {
        assert LastAt(samples, n, kind, key, metric, LastValue(samples, kind, key, metric).value);
      } else if LastValue(samples, kind, key, metric).Some? {
        var v := LastValue(samples, kind, key, metric).value;
        var i :| LastAt(samples[..n], i, kind, key, metric, v);
        LastAtExtends(samples, i, kind, key, metric, v);
      } else {
        forall i | 0 <= i < |samples| ensures !Matches(samples[i], kind, key, metric) {
          assert i < n ==> samples[..n][i] == samples[i];
        }
      }
    }
  }

  lemma LastAtExtends(samples: seq<Sample>, i: nat, kind: Kind, key: Key, metric: MetricName, v: real)
    requires samples != [] && !Matches(samples[|samples| - 1], kind, key, metric)
    requires LastAt(samples[..|samples| - 1], i, kind, key, metric, v)
    ensures LastAt(samples, i, kind, key, metric, v)
  {}

  /** A series reports its newest point that has a value, and the first field that has one there. */
  lemma {:induction false} LatestIsNewest(data: seq<Point>, fields: seq<Field>)
    ensures match LatestValue(data, fields)
            case None => forall i | 0 <= i < |data| :: FirstField(data[i], fields).None?
            case Some((value, stamp)) =>
              exists i :: 0 <= i < |data| && FirstField(data[i], fields) == Some(value)
                          && data[i].timestamp == stamp
                          && (forall j | i < j < |data| :: FirstField(data[j], fields).None?)
  {
    if data == [] {
    } else {
      var n := |data| - 1;
      LatestIsNewest(data[..n], fields);
      if FirstField(data[n], fields).None? && LatestValue(data, fields).Some? {
        var i :| 0 <= i < n && FirstField(data[..n][i], fields) == Some(LatestValue(data, fields).value.0)
          && data[..n][i].timestamp == LatestValue(data, fields).value.1
          && forall j | i < j < n :: FirstField(data[..n][j], fields).None?;
        assert FirstField(data[i], fields) == Some(LatestValue(data, fields).value.0);
      }
    }
  }

  ghost predicate StampAt(samples: seq<Sample>, kind: Kind, key: Key, i: nat, v: real) {
    i < |samples| && samples[i].kind == kind && samples[i].key == key && samples[i].stamp == Some(v)
  }

  ghost predicate IsMaximum(samples: seq<Sample>, kind: Kind, key: Key, m: real) {
    && (exists i :: StampAt(samples, kind, key, i, m))
    && (forall i, v | StampAt(samples, kind, key, i, v) :: v <= m)
  }

  /** With non-negative timestamps, MaxStamp is their maximum: an upper bound, and one of them. */
  lemma {:induction false} MaxStampIsMaximum(samples: seq<Sample>, kind: Kind, key: Key)
    requires forall i, v | StampAt(samples, kind, key, i, v) :: v >= 0.0
    ensures MaxStamp(samples, kind, key).None? ==> forall i, v :: !StampAt(samples, kind, key, i, v)
    ensures MaxStamp(samples, kind, key).Some? ==>
              IsMaximum(samples, kind, key, MaxStamp(samples, kind, key).value)
  {
    if samples == [] {
    } else {
      var n := |samples| - 1;
      forall i, v | StampAt(samples[..n], kind, key, i, v) ensures v >= 0.0 {
        assert StampAt(samples, kind, key, i, v);
      }
      MaxStampIsMaximum(samples[..n], kind, key);
      var rest, m := MaxStamp(samples[..n], kind, key), MaxStamp(samples, kind, key);
      forall i: nat, v | i < n && StampAt(samples, kind, key, i, v) ensures StampAt(samples[..n], kind, key, i, v) {}
      var stamped := samples[n].kind == kind && samples[n].key == key && samples[n].stamp.Some?;
      if stamped && (rest.None? || samples[n].stamp.value >= rest.value) {
        assert StampAt(samples, kind, key, n, samples[n].stamp.value);
        assert m == samples[n].stamp;
      } else if rest.Some? {
        var i :| StampAt(samples[..n], kind, key, i, rest.value);
        assert m == rest;
        assert StampAt(samples, kind, key, i, m.value);
      }
    }
  }

  // ---------------------------------------------------------------- results

  datatype Results = Results(
    osts: seq<OstMetric>, ostOperations: seq<OstOperationMetric>,
    mdts: seq<MdtMetric>, mdtOperations: seq<MdtOperationMetric>)

  /** The values of one key: a metric without a sample is absent. */
  type Values = map<MetricName, real>

  /** Builds the result of one key from its values and its timestamp. */
  type Builder<R> = (Key, Values, Option<real>) --> R

  /** The builder takes keys of that many parts. */
  ghost predicate Builds<R(!new)>(build: Builder<R>, arity: nat) {
    forall key, v, stamp :: |key| == arity ==> build.requires(key, v, stamp)
  }

  function OstBuilder(fs: Filesystem): (b: Builder<OstMetric>)
    ensures Builds(b, 1)
  {
    (key: Key, v: Values, stamp: Option<real>) requires |key| == 1 =>
      OstMetric(fs.subscriptionId, fs.resourceGroup, fs.filesystemName, fs.location, key[0],
        Get(v, OstBytesAvailable), Get(v, OstBytesUsed), Get(v, OstBytesTotal),
        Get(v, ClientReadOps), Get(v, ClientReadThroughput), Get(v, ClientWriteOps), Get(v, ClientWriteThroughput),
        Get(v, OstConnectedClients), stamp)
  }

  function OstOperationBuilder(fs: Filesystem): (b: Builder<OstOperationMetric>)
    ensures Builds(b, 2)
  {
    (key: Key, v: Values, stamp: Option<real>) requires |key| == 2 =>
      OstOperationMetric(fs.subscriptionId, fs.resourceGroup, fs.filesystemName, fs.location, key[0], key[1],
        Get(v, OstClientLatency), Get(v, OstClientOps), stamp)
  }

  function MdtBuilder(fs: Filesystem): (b: Builder<MdtMetric>)
    ensures Builds(b, 1)
  {
    (key: Key, v: Values, stamp: Option<real>) requires |key| == 1 =>
      MdtMetric(fs.subscriptionId, fs.resourceGroup, fs.filesystemName, fs.location, key[0],
        Get(v, MdtBytesAvailable), Get(v, MdtBytesUsed), Get(v, MdtBytesTotal),
        Get(v, MdtFilesFree), Get(v, MdtFilesUsed), Get(v, MdtFilesTotal),
        Get(v, HsmActionErrors), Get(v, HsmCurrentRequests), Get(v, LustreClientEvictions),
        Get(v, MdtConnectedClients), stamp)
  }

  function MdtOperationBuilder(fs: Filesystem): (b: Builder<MdtOperationMetric>)
    ensures Builds(b, 2)
  {
    (key: Key, v: Values, stamp: Option<real>) requires |key| == 2 =>
      MdtOperationMetric(fs.subscriptionId, fs.resourceGroup, fs.filesystemName, fs.location, key[0], key[1],
        Get(v, MdtClientLatency), Get(v, MdtClientOps), stamp)
  }

  function KeyArity(kind: Kind): nat { if kind.Ost? || kind.Mdt? then 1 else 2 }

  ghost predicate WellKeyed(samples: seq<Sample>) {
    forall i | 0 <= i < |samples| :: |samples[i].key| == KeyArity(samples[i].kind)
  }

  lemma {:induction false} SeriesWellKeyed(metric: MetricName, series: seq<TimeSeries>)
    ensures WellKeyed(SeriesSamples(metric, series))
  {
    if series == [] {
    } else {
      SeriesWellKeyed(metric, series[..|series| - 1]);
    }
  }

  lemma {:induction false} SamplesWellKeyed(metrics: seq<Metric>)
    ensures WellKeyed(Samples(metrics))
  {
    if metrics == [] {
    } else {
      var last := metrics[|metrics| - 1];
      SamplesWellKeyed(metrics[..|metrics| - 1]);
      if last.name.Some? { SeriesWellKeyed(last.name.value, last.series); }
    }
  }

  lemma KeyArityHolds(samples: seq<Sample>, kind: Kind)
    requires WellKeyed(samples)
    ensures forall key | key in KeyOrder(samples, kind) :: |key| == KeyArity(kind)
  {}

  /** The last value of each metric of a key. */
  ghost function ValuesOf(samples: seq<Sample>, kind: Kind, key: Key): Values {
    map metric: MetricName | LastValue(samples, kind, key, metric).Some? :: LastValue(samples, kind, key, metric).value
  }

  /** One result per key, in order of first appearance, from its last values and its largest timestamp. */
  ghost predicate ResultsOf<R(!new)>(samples: seq<Sample>, kind: Kind, build: Builder<R>, r: seq<R>) {
    var order := KeyOrder(samples, kind);
    && |r| == |order|
    && forall i | 0 <= i < |order| ::
         && build.requires(order[i], ValuesOf(samples, kind, order[i]), MaxStamp(samples, kind, order[i]))
         && r[i] == build(order[i], ValuesOf(samples, kind, order[i]), MaxStamp(samples, kind, order[i]))
  }

  ghost predicate Normalised(fs: Filesystem, samples: seq<Sample>, r: Results) {
    && ResultsOf(samples, Ost, OstBuilder(fs), r.osts)
    && ResultsOf(samples, OstOperation, OstOperationBuilder(fs), r.ostOperations)
    && ResultsOf(samples, Mdt, MdtBuilder(fs), r.mdts)
    && ResultsOf(samples, MdtOperation, MdtOperationBuilder(fs), r.mdtOperations)
  }

  /** Fills the four tables in one pass over the response. */
  method FillTables(metrics: seq<Metric>) returns (ost: Table, ostOperation: Table, mdt: Table, mdtOperation: Table)
    ensures ost == TableOf(Ost, Samples(metrics)) && ostOperation == TableOf(OstOperation, Samples(metrics))
    ensures mdt == TableOf(Mdt, Samples(metrics)) && mdtOperation == TableOf(MdtOperation, Samples(metrics))
  {
    ost, ostOperation, mdt, mdtOperation := NO_ENTRIES, NO_ENTRIES, NO_ENTRIES, NO_ENTRIES;
    for i := 0 to |metrics|
      invariant ost == TableOf(Ost, Samples(metrics[..i])) && ostOperation == TableOf(OstOperation, Samples(metrics[..i]))
      invariant mdt == TableOf(Mdt, Samples(metrics[..i])) && mdtOperation == TableOf(MdtOperation, Samples(metrics[..i]))
    {
      assert metrics[..i + 1][..i] == metrics[..i];
      if metrics[i].name.None? {
        assert Samples(metrics[..i + 1]) == Samples(metrics[..i]);
        continue;
      }
      var name, series := metrics[i].name.value, metrics[i].series;
      ghost var done := Samples(metrics[..i]);
      assert done + SeriesSamples(name, series[..0]) == done;
      for j := 0 to |series|
        invariant ost == TableOf(Ost, done + SeriesSamples(name, series[..j]))
        invariant ostOperation == TableOf(OstOperation, done + SeriesSamples(name, series[..j]))
        invariant mdt == TableOf(Mdt, done + SeriesSamples(name, series[..j]))
        invariant mdtOperation == TableOf(MdtOperation, done + SeriesSamples(name, series[..j]))
      {
        NextSeries(done, name, series, j);
        var sample := SampleOf(name, series[j]);
        if sample.None? {
          continue;
        }
        match sample.value.kind {
          case OstOperation => ostOperation := Record(ostOperation, sample.value);
          case Ost => ost := Record(ost, sample.value);
          case MdtOperation => mdtOperation := Record(mdtOperation, sample.value);
          case Mdt => mdt := Record(mdt, sample.value);
        }
      }
      assert series[..|series|] == series;
    }
    assert metrics[..|metrics|] == metrics;
  }

  lemma NextSeries(done: seq<Sample>, name: MetricName, series: seq<TimeSeries>, j: nat)
    requires j < |series|
    ensures var now, next := done + SeriesSamples(name, series[..j]), done + SeriesSamples(name, series[..j + 1]);
            match SampleOf(name, series[j])
            case None => next == now
            case Some(sample) =>
              forall kind :: TableOf(kind, next) ==
                (if sample.kind == kind then Record(TableOf(kind, now), sample) else TableOf(kind, now))
  {
    var now, next := done + SeriesSamples(name, series[..j]), done + SeriesSamples(name, series[..j + 1]);
    assert series[..j + 1][..j] == series[..j];
    if SampleOf(name, series[j]).Some? {
      assert next == now + [SampleOf(name, series[j]).value];
      assert next[..|next| - 1] == now;
    }
  }

  /** `normalize_lustre_metrics_response`. */
  method NormalizeLustreMetricsResponse(fs: Filesystem, metrics: seq<Metric>) returns (r: Results)
    ensures Normalised(fs, Samples(metrics), r)
  {
    ghost var samples := Samples(metrics);
    SamplesWellKeyed(metrics);
    var ost, ostOperation, mdt, mdtOperation := FillTables(metrics);
    var osts := BuildResults(Ost, ost, OstBuilder(fs), samples);
    var ostOperations := BuildResults(OstOperation, ostOperation, OstOperationBuilder(fs), samples);
    var mdts := BuildResults(Mdt, mdt, MdtBuilder(fs), samples);
    var mdtOperations := BuildResults(MdtOperation, mdtOperation, MdtOperationBuilder(fs), samples);
    r := Results(osts, ostOperations, mdts, mdtOperations);
  }

  lemma TableRow(kind: Kind, samples: seq<Sample>, key: Key)
    requires key in KeyOrder(samples, kind)
    ensures var t := TableOf(kind, samples);
            && key in t.values && t.values[key] == ValuesOf(samples, kind, key)
            && Get(t.stamps, key) == MaxStamp(samples, kind, key)
  {
    var t := TableOf(kind, samples);
    TableKeys(kind, samples);
    TableStamps(kind, samples, key);
    forall metric: MetricName ensures Get(t.values[key], metric) == LastValue(samples, kind, key, metric) {
      TableValues(kind, samples, key, metric);
    }
    forall metric: MetricName
      ensures metric in t.values[key] <==> metric in ValuesOf(samples, kind, key)
      ensures metric in t.values[key] ==> t.values[key][metric] == ValuesOf(samples, kind, key)[metric]
    {
      assert Get(t.values[key], metric) == LastValue(samples, kind, key, metric);
    }
  }

  /** The loop over the items of one table. */
  method BuildRows<R(!new)>(t: Table, build: Builder<R>, arity: nat) returns (r: seq<R>)
    requires Builds(build, arity) && forall i | 0 <= i < |t.order| :: t.order[i] in t.values && |t.order[i]| == arity
    ensures |r| == |t.order|
    ensures forall i | 0 <= i < |r| :: r[i] == build(t.order[i], t.values[t.order[i]], Get(t.stamps, t.order[i]))
  {
    r := [];
    for k := 0 to |t.order|
      invariant |r| == k
      invariant forall i | 0 <= i < k :: r[i] == build(t.order[i], t.values[t.order[i]], Get(t.stamps, t.order[i]))
    {
      var key := t.order[k];
      r := r + [build(key, t.values[key], Get(t.stamps, key))];
    }
  }

  lemma RowsAreResults<R(!new)>(kind: Kind, t: Table, build: Builder<R>, samples: seq<Sample>, r: seq<R>)
    requires WellKeyed(samples) && t == TableOf(kind, samples) && Builds(build, KeyArity(kind)) && |r| == |t.order|
    requires forall i | 0 <= i < |t.order| :: t.order[i] in t.values && |t.order[i]| == KeyArity(kind)
    requires forall i | 0 <= i < |r| :: r[i] == build(t.order[i], t.values[t.order[i]], Get(t.stamps, t.order[i]))
    ensures ResultsOf(samples, kind, build, r)
  {
    TableKeys(kind, samples);
    var order := KeyOrder(samples, kind);
    forall i | 0 <= i < |order|
      ensures build.requires(order[i], ValuesOf(samples, kind, order[i]), MaxStamp(samples, kind, order[i]))
      ensures r[i] == build(order[i], ValuesOf(samples, kind, order[i]), MaxStamp(samples, kind, order[i]))
    {
      TableRow(kind, samples, order[i]);
    }
  }

  lemma TableUsable(kind: Kind, samples: seq<Sample>)
    requires WellKeyed(samples)
    ensures var t := TableOf(kind, samples);
            forall i | 0 <= i < |t.order| :: t.order[i] in t.values && |t.order[i]| == KeyArity(kind)
  {
    TableKeys(kind, samples);
    KeyArityHolds(samples, kind);
  }

  method BuildResults<R(!new)>(kind: Kind, t: Table, build: Builder<R>, ghost samples: seq<Sample>) returns (r: seq<R>)
    requires t == TableOf(kind, samples) && WellKeyed(samples) && Builds(build, KeyArity(kind))
    ensures ResultsOf(samples, kind, build, r)
  {
    TableUsable(kind, samples);
    r := BuildRows(t, build, KeyArity(kind));
    RowsAreResults(kind, t, build, samples, r);
  }

  // ---------------------------------------------------------------- order of the entries

  /** The entries of one metric name, in order. */
  function Select(metrics: seq<Metric>, name: MetricName): seq<Metric> {
    if metrics == [] then []
    else
      var last := metrics[|metrics| - 1];
      Select(metrics[..|metrics| - 1], name) + if last.name == Some(name) then [last] else []
  }

  /** A reordering that keeps the relative order of entries of the same name. */
  ghost predicate SameByName(xs: seq<Metric>, ys: seq<Metric>) {
    forall name :: Select(xs, name) == Select(ys, name)
  }

  function OfMetric(samples: seq<Sample>, metric: MetricName): seq<Sample> {
    if samples == [] then []
    else
      var last := samples[|samples| - 1];
      OfMetric(samples[..|samples| - 1], metric) + if last.metric == metric then [last] else []
  }

  lemma {:induction false} OfMetricConcat(xs: seq<Sample>, ys: seq<Sample>, metric: MetricName)
    ensures OfMetric(xs + ys, metric) == OfMetric(xs, metric) + OfMetric(ys, metric)
  {
    if ys == [] {
      assert xs + ys == xs;
    } else {
      OfMetricConcat(xs, ys[..|ys| - 1], metric);
      assert (xs + ys)[..|xs + ys| - 1] == xs + ys[..|ys| - 1];
    }
  }

  lemma OfOne(sample: Sample, metric: MetricName)
    ensures OfMetric([sample], metric) == if sample.metric == metric then [sample] else []
  {}

  lemma {:induction false} SeriesOfMetric(name: MetricName, series: seq<TimeSeries>, metric: MetricName)
    ensures OfMetric(SeriesSamples(name, series), metric) == if name == metric then SeriesSamples(name, series) else []
  {
    if series == [] {
    } else {
      var n := |series| - 1;
      SeriesOfMetric(name, series[..n], metric);
      var prev := SeriesSamples(name, series[..n]);
      match SampleOf(name, series[n])
      case Some(sample) => OfMetricConcat(prev, [sample], metric); OfOne(sample, metric);
      case None => assert prev + [] == prev;
    }
  }

  lemma EntryOfMetric(entry: Metric, metric: MetricName)
    ensures OfMetric(EntrySamples(entry), metric) == if entry.name == Some(metric) then EntrySamples(entry) else []
  {
    if entry.name.Some? {
      SeriesOfMetric(entry.name.value, entry.series, metric);
    }
  }

  lemma SamplesOneMore(metrics: seq<Metric>, entry: Metric)
    ensures Samples(metrics + [entry]) == Samples(metrics) + EntrySamples(entry)
  {}

  lemma {:induction false} SamplesOfMetric(metrics: seq<Metric>, metric: MetricName)
    ensures OfMetric(Samples(metrics), metric) == Samples(Select(metrics, metric))
  {
    if metrics == [] {
    } else {
      var n := |metrics| - 1;
      SamplesOfMetric(metrics[..n], metric);
      OfMetricConcat(Samples(metrics[..n]), EntrySamples(metrics[n]), metric);
      EntryOfMetric(metrics[n], metric);
      if metrics[n].name == Some(metric) {
        SamplesOneMore(Select(metrics[..n], metric), metrics[n]);
      } else {
        assert Select(metrics, metric) == Select(metrics[..n], metric);
      }
    }
  }

  lemma {:induction false} LastValueOfMetric(samples: seq<Sample>, kind: Kind, key: Key, metric: MetricName)
    ensures LastValue(OfMetric(samples, metric), kind, key, metric) == LastValue(samples, kind, key, metric)
  {
    if samples == [] {
    } else {
      var n := |samples| - 1;
      LastValueOfMetric(samples[..n], kind, key, metric);
      var sel, prev := OfMetric(samples, metric), OfMetric(samples[..n], metric);
      if samples[n].metric == metric {
        assert sel == prev + [samples[n]] && sel[..|sel| - 1] == prev;
      } else {
        assert sel == prev;
      }
    }
  }

  lemma {:induction false} InOfMetric(samples: seq<Sample>, sample: Sample)
    ensures sample in OfMetric(samples, sample.metric) <==> sample in samples
  {
    if samples == [] {
    } else {
      InOfMetric(samples[..|samples| - 1], sample);
      assert samples == samples[..|samples| - 1] + [samples[|samples| - 1]];
    }
  }

  /** MaxStamp by membership: its value bounds every timestamp, zero, and is reached. */
  lemma {:induction false} MaxStampByMembers(samples: seq<Sample>, kind: Kind, key: Key)
    ensures var m := MaxStamp(samples, kind, key);
            && (forall x | x in samples && x.kind == kind && x.key == key && x.stamp.Some? ::
                  m.Some? && x.stamp.value <= m.value)
            && (m.Some? ==> m.value >= 0.0)
            && (m.Some? ==> exists x :: x in samples && x.kind == kind && x.key == key && x.stamp.Some?
                                        && (x.stamp.value == m.value || m.value == 0.0))
  {
    if samples == [] {
    } else {
      var n := |samples| - 1;
      MaxStampByMembers(samples[..n], kind, key);
      assert samples == samples[..n] + [samples[n]];
      var m := MaxStamp(samples, kind, key);
      if m.Some? {
        if samples[n].kind == kind && samples[n].key == key && samples[n].stamp.Some?
           && (samples[n].stamp.value == m.value || m.value == 0.0) {
          assert samples[n] in samples;
        } else {
          var x :| x in samples[..n] && x.kind == kind && x.key == key && x.stamp.Some?
                   && (x.stamp.value == m.value || m.value == 0.0);
          assert x in samples;
        }
      }
    }
  }

  lemma MaxStampSameMembers(xs: seq<Sample>, ys: seq<Sample>, kind: Kind, key: Key)
    requires forall x :: x in xs <==> x in ys
    ensures MaxStamp(xs, kind, key) == MaxStamp(ys, kind, key)
  {
    MaxStampByMembers(xs, kind, key);
    MaxStampByMembers(ys, kind, key);
  }

  /**
    Reordering entries of different metric names, as merging batches may, changes no value, no
    timestamp and no key.
   */
  lemma ReorderingChangesNothing(xs: seq<Metric>, ys: seq<Metric>, kind: Kind, key: Key, metric: MetricName)
    requires SameByName(xs, ys)
    ensures LastValue(Samples(xs), kind, key, metric) == LastValue(Samples(ys), kind, key, metric)
    ensures MaxStamp(Samples(xs), kind, key) == MaxStamp(Samples(ys), kind, key)
    ensures key in KeyOrder(Samples(xs), kind) <==> key in KeyOrder(Samples(ys), kind)
  {
    LastValueOfMetric(Samples(xs), kind, key, metric);
    LastValueOfMetric(Samples(ys), kind, key, metric);
    SamplesOfMetric(xs, metric);
    SamplesOfMetric(ys, metric);
    SameMembers(xs, ys);
    MaxStampSameMembers(Samples(xs), Samples(ys), kind, key);
    KeysListedOnce(Samples(xs), kind);
    KeysListedOnce(Samples(ys), kind);
    SameKeys(Samples(xs), Samples(ys), kind, key);
    SameKeys(Samples(ys), Samples(xs), kind, key);
  }

  lemma SameMembers(xs: seq<Metric>, ys: seq<Metric>)
    requires SameByName(xs, ys)
    ensures forall x :: x in Samples(xs) <==> x in Samples(ys)
  {
    forall x ensures x in Samples(xs) <==> x in Samples(ys) {
      InOfMetric(Samples(xs), x);
      InOfMetric(Samples(ys), x);
      SamplesOfMetric(xs, x.metric);
      SamplesOfMetric(ys, x.metric);
    }
  }

  lemma SameKeys(xs: seq<Sample>, ys: seq<Sample>, kind: Kind, key: Key)
    requires forall x :: x in xs ==> x in ys
    ensures HasKey(xs, kind, key) ==> HasKey(ys, kind, key)
  {
    if i :| 0 <= i < |xs| && xs[i].kind == kind && xs[i].key == key {
      assert xs[i] in ys;
      var j :| 0 <= j < |ys| && ys[j] == xs[i];
    }
  }

  // ---------------------------------------------------------------- batches

  datatype ChunkError = ChunkSizeNotPositive

  function Chunks<T>(names: seq<T>, size: nat): seq<seq<T>>
    requires size > 0
    decreases |names|
  {
    if names == [] then []
    else if |names| <= size then [names]
    else [names[..size]] + Chunks(names[size..], size)
  }

  /** `_chunk_metric_names`. */
  function ChunkMetricNames<T>(names: seq<T>, size: int): (r: Result<seq<seq<T>>, ChunkError>)
    ensures r.Ok? <==> size > 0
    ensures r.Ok? ==> Flatten(r.value) == names && forall i | 0 <= i < |r.value| :: 0 < |r.value[i]| <= size
  {
    if size <= 0 then Err(ChunkSizeNotPositive)
    else
      ChunksPartition(names, size);
      Ok(Chunks(names, size))
  }

  function Flatten<T>(chunks: seq<seq<T>>): seq<T> {
    if chunks == [] then [] else chunks[0] + Flatten(chunks[1..])
  }

  /** The chunks are the names in order, every chunk is full but the last, and none is empty. */
  lemma {:induction false} ChunksPartition<T>(names: seq<T>, size: nat)
    requires size > 0
    ensures var chunks := Chunks(names, size);
            && Flatten(chunks) == names
            && (forall i | 0 <= i < |chunks| :: 0 < |chunks[i]| <= size)
            && (forall i | 0 <= i < |chunks| - 1 :: |chunks[i]| == size)
    decreases |names|
  {
    if names != [] && |names| > size {
      ChunksPartition(names[size..], size);
    }
  }

  /** The requests `_collect_filesystem_metrics` makes: chunked averages, operations, chunked totals. */
  function Requests<T>(average: seq<T>, operations: seq<seq<T>>, total: seq<T>, limit: nat): seq<seq<T>>
    requires limit > 0
  {
    Chunks(average, limit) + operations + Chunks(total, limit)
  }

  lemma RequestsCover<T>(average: seq<T>, first: seq<T>, second: seq<T>, total: seq<T>, limit: nat)
    requires limit > 0 && |first| <= limit && |second| <= limit
    ensures var requests := Requests(average, [first, second], total, limit);
            && Flatten(requests) == average + first + second + total
            && forall i | 0 <= i < |requests| :: |requests[i]| <= limit
  {
    ChunksPartition(average, limit);
    ChunksPartition(total, limit);
    FlattenConcat(Chunks(average, limit) + [first, second], Chunks(total, limit));
    FlattenConcat(Chunks(average, limit), [first, second]);
    assert [first, second][1..] == [second] && [second][1..] == [];
    assert Flatten([second]) == second && Flatten([first, second]) == first + second;
    assert average + (first + second) == average + first + second;
  }

  lemma SwapMiddle<T>(a: seq<T>, b: seq<T>, c: seq<T>, d: seq<T>, e: seq<T>)
    ensures multiset((a + b) + c + d + e) == multiset(a + c + b + d + e)
  {}

  /**
    The requests for one filesystem ask for every collected metric exactly once, at most twenty
    names at a time.
   */
  lemma BatchesCoverMetrics()
    ensures var requests := Requests(LUSTRE_SIMPLE_AVERAGE_METRICS, [OST_OPERATION_METRICS, MDT_OPERATION_METRICS],
                                     MDT_TOTAL_METRICS, AZURE_MONITOR_METRIC_NAMES_PER_REQUEST);
            && multiset(Flatten(requests)) == multiset(LUSTRE_METRICS)
            && forall i | 0 <= i < |requests| :: |requests[i]| <= 20
  {
    RequestsCover(LUSTRE_SIMPLE_AVERAGE_METRICS, OST_OPERATION_METRICS, MDT_OPERATION_METRICS, MDT_TOTAL_METRICS,
                  AZURE_MONITOR_METRIC_NAMES_PER_REQUEST);
    SwapMiddle(OST_SIMPLE_METRICS, MDT_SIMPLE_METRICS, OST_OPERATION_METRICS, MDT_OPERATION_METRICS, MDT_TOTAL_METRICS);
  }

  lemma {:induction false} FlattenConcat<T>(xs: seq<seq<T>>, ys: seq<seq<T>>)
    ensures Flatten(xs + ys) == Flatten(xs) + Flatten(ys)
  {
    if xs == [] {
      assert xs + ys == ys;
    } else {
      FlattenConcat(xs[1..], ys);
      assert (xs + ys)[1..] == xs[1..] + ys;
    }
  }
}
