/**
  What a response says, read without the normaliser's own functions: which dimension of the metadata
  gives the key of a series, which point and field give its value, and which metric each named field
  of a result comes from.
 */
module LustreReadings {
  import opened Wrappers
  import opened Numbers
  import opened Models
  import opened LustreNormalisation

  // ---------------------------------------------------------------- dimensions

  /** The same name but for upper-case letters in `raw`. */
  predicate SameName(raw: string, name: string) {
    && |raw| == |name|
    && forall i | 0 <= i < |raw| ::
         if 'A' <= raw[i] <= 'Z' then name[i] as int == raw[i] as int + 32 else name[i] == raw[i]
  }

  /** White space only: tab to carriage return, the four separators, and space. */
  predicate WhiteSpace(s: string) {
    forall c | c in s :: c as int in {9, 10, 11, 12, 13, 28, 29, 30, 31, 32}
  }

  /** An entry of that name with a value that is not white space. */
  predicate Usable(entry: (string, Option<string>), name: string) {
    SameName(entry.0, name) && entry.1.Some? && !WhiteSpace(entry.1.value)
  }

  ghost predicate FirstAt(metadata: seq<(string, Option<string>)>, name: string, i: int) {
    && 0 <= i < |metadata| && Usable(metadata[i], name)
    && forall j | 0 <= j < i :: !Usable(metadata[j], name)
  }

  /** `value` is that of the first usable entry, absent when there is none. */
  ghost predicate IsDimension(metadata: seq<(string, Option<string>)>, name: string, value: Option<string>) {
    if value.Some? then exists i :: FirstAt(metadata, name, i) && metadata[i].1 == value
    else forall i | 0 <= i < |metadata| :: !Usable(metadata[i], name)
  }

  lemma {:induction false} LowerMeaning(raw: string, name: string)
    ensures Lower(raw) == name <==> SameName(raw, name)
  {
    if raw == "" {
    } else if name == "" {
    } else {
      LowerMeaning(raw[1..], name[1..]);
      assert Lower(raw) == name <==> LowerChar(raw[0]) == name[0] && Lower(raw[1..]) == name[1..] by {
        assert name == [name[0]] + name[1..];
        assert Lower(raw)[1..] == Lower(raw[1..]) && Lower(raw)[0] == LowerChar(raw[0]);
      }
      assert SameName(raw, name) <==>
        (if 'A' <= raw[0] <= 'Z' then name[0] as int == raw[0] as int + 32 else name[0] == raw[0])
        && SameName(raw[1..], name[1..]) by {
        SameNameSplit(raw, name);
      }
    }
  }

  lemma SameNameSplit(raw: string, name: string)
    requires raw != "" && name != ""
    ensures SameName(raw, name) <==>
            (if 'A' <= raw[0] <= 'Z' then name[0] as int == raw[0] as int + 32 else name[0] == raw[0])
            && SameName(raw[1..], name[1..])
  {
    assert raw == [raw[0]] + raw[1..] && name == [name[0]] + name[1..];
  }

  lemma BlankMeaning(s: string)
    ensures Blank(s) <==> WhiteSpace(s)
  {
    if WhiteSpace(s) {
      assert forall i | 0 <= i < |s| :: s[i] in s;
    }
  }

  lemma UsableMeaning(entry: (string, Option<string>), name: string)
    ensures Lower(entry.0) == name && entry.1.Some? && !Blank(entry.1.value) <==> Usable(entry, name)
  {
    LowerMeaning(entry.0, name);
    if entry.1.Some? {
      BlankMeaning(entry.1.value);
    }
  }

  /** A dimension is the first usable entry of its name. */
  lemma {:induction false} DimensionMeaning(metadata: seq<(string, Option<string>)>, name: string)
    ensures IsDimension(metadata, name, DimensionValue(metadata, name))
  {
    if metadata == [] {
    } else {
      UsableMeaning(metadata[0], name);
      if Usable(metadata[0], name) {
        assert FirstAt(metadata, name, 0);
      } else {
        var value := DimensionValue(metadata[1..], name);
        DimensionMeaning(metadata[1..], name);
        if value.Some? {
          var i :| FirstAt(metadata[1..], name, i) && metadata[1..][i].1 == value;
          assert metadata[1..][i] == metadata[i + 1];
          assert forall j | 0 < j <= i :: metadata[j] == metadata[1..][j - 1];
          assert FirstAt(metadata, name, i + 1);
        } else {
          assert forall i | 0 < i < |metadata| :: metadata[i] == metadata[1..][i - 1];
        }
      }
    }
  }

  lemma DimensionUnique(metadata: seq<(string, Option<string>)>, name: string, value: Option<string>)
    requires IsDimension(metadata, name, value)
    ensures value == DimensionValue(metadata, name)
  {
    DimensionMeaning(metadata, name);
    var found := DimensionValue(metadata, name);
    if value.Some? && found.Some? {
      var i :| FirstAt(metadata, name, i) && metadata[i].1 == value;
      var j :| FirstAt(metadata, name, j) && metadata[j].1 == found;
      assert i == j;
    }
  }

  /**
    The key of an OST series: its ostnum, "all" without any metadata; for an operation, a missing
    ostnum or operation is "all" too. A simple series whose metadata lacks the ostnum has no key.
   */
  lemma OstKeys(series: TimeSeries, number: Option<string>, operation: Option<string>)
    requires IsDimension(series.metadata, "ostnum", number) && IsDimension(series.metadata, "operation", operation)
    ensures KeyOf(Ost, series) ==
            if series.metadata == [] then Some(["all"])
            else if number.Some? then Some([number.value]) else None
    ensures KeyOf(OstOperation, series) ==
            Some([if number.Some? then number.value else "all", if operation.Some? then operation.value else "all"])
  {
    DimensionUnique(series.metadata, "ostnum", number);
    DimensionUnique(series.metadata, "operation", operation);
  }

  /** The key of an MDT series, from its mdtnum in the same way. */
  lemma MdtKeys(series: TimeSeries, number: Option<string>, operation: Option<string>)
    requires IsDimension(series.metadata, "mdtnum", number) && IsDimension(series.metadata, "operation", operation)
    ensures KeyOf(Mdt, series) ==
            if series.metadata == [] then Some(["all"])
            else if number.Some? then Some([number.value]) else None
    ensures KeyOf(MdtOperation, series) ==
            Some([if number.Some? then number.value else "all", if operation.Some? then operation.value else "all"])
  {
    DimensionUnique(series.metadata, "mdtnum", number);
    DimensionUnique(series.metadata, "operation", operation);
  }

  // ---------------------------------------------------------------- values

  /** What a point says for a metric: evictions report the total, else the maximum, else the average. */
  function Reading(metric: MetricName, point: Point): Option<real> {
    match metric
    case LustreClientEvictions =>
      if point.total.Some? then point.total
      else if point.maximum.Some? then point.maximum
      else point.average
    case _ => point.average
  }

  lemma ReadingMeaning(metric: MetricName, point: Point)
    ensures FirstField(point, FieldsFor(metric)) == Reading(metric, point)
  {
    assert [Total, Maximum, Average][1..] == [Maximum, Average] && [Maximum, Average][1..] == [Average];
    assert FirstField(point, [Average]) == point.average;
    assert FirstField(point, [Maximum, Average]) == if point.maximum.Some? then point.maximum else point.average;
  }

  /** The kind of result a metric belongs to. */
  function ResultKind(metric: MetricName): Kind {
    match metric
    case OstBytesAvailable | OstBytesUsed | OstBytesTotal | OstConnectedClients => Ost
    case ClientReadOps | ClientReadThroughput | ClientWriteOps | ClientWriteThroughput => Ost
    case OstClientLatency | OstClientOps => OstOperation
    case MdtClientLatency | MdtClientOps => MdtOperation
    case _ => Mdt
  }

  lemma KindMeaning(metric: MetricName)
    ensures KindOf(metric) == ResultKind(metric)
  {}

  /** Point `i` is the newest with a reading. */
  ghost predicate NewestAt(metric: MetricName, data: seq<Point>, i: nat) {
    && i < |data| && Reading(metric, data[i]).Some?
    && forall j | i < j < |data| :: Reading(metric, data[j]).None?
  }

  lemma NewestDecides(metric: MetricName, data: seq<Point>, i: nat)
    requires NewestAt(metric, data, i)
    ensures LatestValue(data, FieldsFor(metric)) == Some((Reading(metric, data[i]).value, data[i].timestamp))
  {
    var fields := FieldsFor(metric);
    forall j | 0 <= j < |data| ensures FirstField(data[j], fields) == Reading(metric, data[j]) {
      ReadingMeaning(metric, data[j]);
    }
    LatestIsNewest(data, fields);
  }

  /** A series contributes its newest reading, stamped with that point's time, under its key. */
  lemma SampleMeaning(metric: MetricName, series: TimeSeries, i: nat)
    ensures NewestAt(metric, series.data, i) ==>
              SampleOf(metric, series) ==
              match KeyOf(ResultKind(metric), series)
              case None => None
              case Some(key) =>
                var point := series.data[i];
                Some(Sample(ResultKind(metric), key, metric, Reading(metric, point).value, point.timestamp))
    ensures (forall j | 0 <= j < |series.data| :: Reading(metric, series.data[j]).None?) ==> SampleOf(metric, series) == None
  {
    KindMeaning(metric);
    forall j | 0 <= j < |series.data|
      ensures FirstField(series.data[j], FieldsFor(metric)) == Reading(metric, series.data[j])
    {
      ReadingMeaning(metric, series.data[j]);
    }
    LatestIsNewest(series.data, FieldsFor(metric));
    if NewestAt(metric, series.data, i) {
      NewestDecides(metric, series.data, i);
    }
  }

  // ---------------------------------------------------------------- responses

  lemma SeriesOneMore(metric: MetricName, series: seq<TimeSeries>, last: TimeSeries)
    ensures SeriesSamples(metric, series + [last])
         == SeriesSamples(metric, series) + match SampleOf(metric, last) case Some(sample) => [sample] case None => []
  {
    assert (series + [last])[..|series|] == series;
  }

  /** An entry of a metric that is not collected adds no samples to a response, nor does one without series. */
  lemma EntryMeaning(init: seq<Metric>, metric: MetricName, series: seq<TimeSeries>)
    ensures Samples([]) == []
    ensures Samples(init + [Metric(None, series)]) == Samples(init)
    ensures Samples(init + [Metric(Some(metric), [])]) == Samples(init)
  {
    SamplesOneMore(init, Metric(None, series));
    SamplesOneMore(init, Metric(Some(metric), []));
  }

  lemma Associative<T>(a: seq<T>, b: seq<T>, c: seq<T>)
    ensures a + (b + c) == (a + b) + c
  {}

  /** Each series of a collected metric adds its sample, if it has one, after those before it. */
  lemma SeriesMeaning(init: seq<Metric>, metric: MetricName, series: seq<TimeSeries>, last: TimeSeries)
    ensures Samples(init + [Metric(Some(metric), series + [last])])
         == Samples(init + [Metric(Some(metric), series)])
            + match SampleOf(metric, last) case Some(sample) => [sample] case None => []
  {
    SamplesOneMore(init, Metric(Some(metric), series));
    SamplesOneMore(init, Metric(Some(metric), series + [last]));
    SeriesOneMore(metric, series, last);
    Associative(Samples(init), SeriesSamples(metric, series),
                match SampleOf(metric, last) case Some(sample) => [sample] case None => []);
  }

  // ---------------------------------------------------------------- results

  /** Keys are listed in order of first appearance. */
  lemma {:induction false} KeysInOrder(samples: seq<Sample>, kind: Kind, i: nat, j: nat, b: nat)
    requires i < j < |KeyOrder(samples, kind)| && b < |samples|
    requires samples[b].kind == kind && samples[b].key == KeyOrder(samples, kind)[j]
    ensures exists a :: 0 <= a < b && samples[a].kind == kind && samples[a].key == KeyOrder(samples, kind)[i]
  {
    var n := |samples| - 1;
    var order := KeyOrder(samples[..n], kind);
    if b < n {
      KeysListedOnce(samples[..n], kind);
      KeysListedOnce(samples, kind);
      assert samples[..n][b] == samples[b] && HasKey(samples[..n], kind, samples[b].key);
      KeysInOrder(samples[..n], kind, i, j, b);
      var a :| 0 <= a < b && samples[..n][a].kind == kind && samples[..n][a].key == order[i];
      assert samples[a].kind == kind && samples[a].key == order[i];
    } else {
      KeysListedOnce(samples[..n], kind);
      assert order[i] in order && HasKey(samples[..n], kind, order[i]);
      var a :| 0 <= a < n && samples[..n][a].kind == kind && samples[..n][a].key == order[i];
      assert samples[a].kind == kind && samples[a].key == order[i];
    }
  }

  /** Every field of an OST result is the last value of the metric of its name. */
  lemma OstFields(fs: Filesystem, metrics: seq<Metric>, r: Results, i: nat)
    requires Normalised(fs, Samples(metrics), r) && i < |r.osts|
    ensures var samples := Samples(metrics);
            var m, key := r.osts[i], KeyOrder(samples, Ost)[i];
            && |r.osts| == |KeyOrder(samples, Ost)| && key == [m.ostnum]
            && m.subscriptionId == fs.subscriptionId && m.resourceGroup == fs.resourceGroup
            && m.filesystemName == fs.filesystemName && m.location == fs.location
            && m.bytesAvailable == LastValue(samples, Ost, key, OstBytesAvailable)
            && m.bytesUsed == LastValue(samples, Ost, key, OstBytesUsed)
            && m.bytesTotal == LastValue(samples, Ost, key, OstBytesTotal)
            && m.clientReadOps == LastValue(samples, Ost, key, ClientReadOps)
            && m.clientReadThroughput == LastValue(samples, Ost, key, ClientReadThroughput)
            && m.clientWriteOps == LastValue(samples, Ost, key, ClientWriteOps)
            && m.clientWriteThroughput == LastValue(samples, Ost, key, ClientWriteThroughput)
            && m.connectedClients == LastValue(samples, Ost, key, OstConnectedClients)
            && m.sampleTimestamp == MaxStamp(samples, Ost, key)
  {
    var key := KeyOrder(Samples(metrics), Ost)[i];
    SamplesWellKeyed(metrics);
    KeyArityHolds(Samples(metrics), Ost);
    assert key == [key[0]];
  }

  /** Every field of an OST operation result. */
  lemma OstOperationFields(fs: Filesystem, metrics: seq<Metric>, r: Results, i: nat)
    requires Normalised(fs, Samples(metrics), r) && i < |r.ostOperations|
    ensures var samples := Samples(metrics);
            var m, key := r.ostOperations[i], KeyOrder(samples, OstOperation)[i];
            && |r.ostOperations| == |KeyOrder(samples, OstOperation)| && key == [m.ostnum, m.operation]
            && m.subscriptionId == fs.subscriptionId && m.resourceGroup == fs.resourceGroup
            && m.filesystemName == fs.filesystemName && m.location == fs.location
            && m.clientLatency == LastValue(samples, OstOperation, key, OstClientLatency)
            && m.clientOps == LastValue(samples, OstOperation, key, OstClientOps)
            && m.sampleTimestamp == MaxStamp(samples, OstOperation, key)
  {
    var key := KeyOrder(Samples(metrics), OstOperation)[i];
    SamplesWellKeyed(metrics);
    KeyArityHolds(Samples(metrics), OstOperation);
    assert key == [key[0], key[1]];
  }

  /** Every field of an MDT result. */
  lemma MdtFields(fs: Filesystem, metrics: seq<Metric>, r: Results, i: nat)
    requires Normalised(fs, Samples(metrics), r) && i < |r.mdts|
    ensures var samples := Samples(metrics);
            var m, key := r.mdts[i], KeyOrder(samples, Mdt)[i];
            && |r.mdts| == |KeyOrder(samples, Mdt)| && key == [m.mdtnum]
            && m.subscriptionId == fs.subscriptionId && m.resourceGroup == fs.resourceGroup
            && m.filesystemName == fs.filesystemName && m.location == fs.location
            && m.bytesAvailable == LastValue(samples, Mdt, key, MdtBytesAvailable)
            && m.bytesUsed == LastValue(samples, Mdt, key, MdtBytesUsed)
            && m.bytesTotal == LastValue(samples, Mdt, key, MdtBytesTotal)
            && m.filesFree == LastValue(samples, Mdt, key, MdtFilesFree)
            && m.filesUsed == LastValue(samples, Mdt, key, MdtFilesUsed)
            && m.filesTotal == LastValue(samples, Mdt, key, MdtFilesTotal)
            && m.hsmActionErrors == LastValue(samples, Mdt, key, HsmActionErrors)
            && m.hsmCurrentRequests == LastValue(samples, Mdt, key, HsmCurrentRequests)
            && m.clientEvictions == LastValue(samples, Mdt, key, LustreClientEvictions)
            && m.connectedClients == LastValue(samples, Mdt, key, MdtConnectedClients)
            && m.sampleTimestamp == MaxStamp(samples, Mdt, key)
  {
    var key := KeyOrder(Samples(metrics), Mdt)[i];
    SamplesWellKeyed(metrics);
    KeyArityHolds(Samples(metrics), Mdt);
    assert key == [key[0]];
  }

  /** Every field of an MDT operation result. */
  lemma MdtOperationFields(fs: Filesystem, metrics: seq<Metric>, r: Results, i: nat)
    requires Normalised(fs, Samples(metrics), r) && i < |r.mdtOperations|
    ensures var samples := Samples(metrics);
            var m, key := r.mdtOperations[i], KeyOrder(samples, MdtOperation)[i];
            && |r.mdtOperations| == |KeyOrder(samples, MdtOperation)| && key == [m.mdtnum, m.operation]
            && m.subscriptionId == fs.subscriptionId && m.resourceGroup == fs.resourceGroup
            && m.filesystemName == fs.filesystemName && m.location == fs.location
            && m.clientLatency == LastValue(samples, MdtOperation, key, MdtClientLatency)
            && m.clientOps == LastValue(samples, MdtOperation, key, MdtClientOps)
            && m.sampleTimestamp == MaxStamp(samples, MdtOperation, key)
  {
    var key := KeyOrder(Samples(metrics), MdtOperation)[i];
    SamplesWellKeyed(metrics);
    KeyArityHolds(Samples(metrics), MdtOperation);
    assert key == [key[0], key[1]];
  }
}
