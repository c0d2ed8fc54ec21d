/**
  Which figure each gauge shows after an update, gauge by gauge: the labels are spelled out and the
  figures are the named fields of the last sample with those labels.
 */
module GaugeFigures {
  import opened Wrappers
  import opened Numbers
  import opened Models
  import opened GaugeStore
  import opened CollectorRows
  import opened CollectorRuns

  // ---------------------------------------------------------------- one row, one family

  /** A good row's reading of a gauge is the one at the gauge's place. */
  lemma {:induction false} ReadingAt(row: Row, n: nat, k: nat)
    requires GoodRow(row) && k < n <= |row.readings|
    ensures ReadingEffect(row.readings[..n], Gauge(row.family, k)) == row.readings[k].1
  {
    assert row.readings[..n][..n - 1] == row.readings[..n - 1];
    assert GoodReading(row, n - 1);
    if k < n - 1 {
      ReadingAt(row, n - 1, k);
    } else {
      GoodRowWrites(row, n - 1, Gauge(row.family, k));
    }
  }

  lemma EffectAt(row: Row, k: nat)
    requires GoodRow(row) && k < |row.readings|
    ensures RowEffect(row, Series(Gauge(row.family, k), row.labels)) == row.readings[k].1
  {
    ReadingAt(row, |row.readings|, k);
    assert row.readings[..|row.readings|] == row.readings;
  }

  /** The last sample that writes a series decides it. */
  lemma {:induction false} MapLast<T>(samples: seq<T>, row: T -> Row, i: nat, s: Series)
    requires i < |samples| && forall j | i < j < |samples| :: RowEffect(row(samples[j]), s).Keep?
    ensures !RowEffect(row(samples[i]), s).Keep? ==>
              LastEffect(MapRows(samples, row), s) == RowEffect(row(samples[i]), s)
  {
    var n := |samples| - 1;
    var rows := MapRows(samples, row);
    assert rows[..n] == MapRows(samples[..n], row) && rows[n] == row(samples[n]) by {
      MapLength(samples[..n], row);
    }
    if i < n {
      assert samples[..n][i] == samples[i];
      assert forall j | i < j < n :: samples[..n][j] == samples[j];
      MapLast(samples[..n], row, i, s);
    }
  }

  lemma {:induction false} MapLength<T>(samples: seq<T>, row: T -> Row)
    ensures |MapRows(samples, row)| == |samples|
  {
    if samples == [] {
    } else {
      MapLength(samples[..|samples| - 1], row);
    }
  }

  lemma {:induction false} MapNone<T>(samples: seq<T>, row: T -> Row, s: Series)
    requires forall j | 0 <= j < |samples| :: RowEffect(row(samples[j]), s).Keep?
    ensures LastEffect(MapRows(samples, row), s).Keep?
  {
    if samples == [] {
    } else {
      var n := |samples| - 1;
      MapLength(samples[..n], row);
      assert MapRows(samples, row)[..n] == MapRows(samples[..n], row);
      assert forall j | 0 <= j < n :: samples[..n][j] == samples[j];
      MapNone(samples[..n], row, s);
    }
  }

  /** Each family is decided by its own samples. */
  lemma OwnPart(m: LustreSamples, s: Series)
    ensures s.gauge.family.OstFamily? ==> LastEffect(LustreRows(m), s) == LastEffect(MapRows(m.osts, OstRow), s)
    ensures s.gauge.family.OstOperationFamily? ==>
              LastEffect(LustreRows(m), s) == LastEffect(MapRows(m.ostOperations, OstOperationRow), s)
    ensures s.gauge.family.MdtFamily? ==> LastEffect(LustreRows(m), s) == LastEffect(MapRows(m.mdts, MdtRow), s)
    ensures s.gauge.family.MdtOperationFamily? ==>
              LastEffect(LustreRows(m), s) == LastEffect(MapRows(m.mdtOperations, MdtOperationRow), s)
    ensures s.gauge.family.FilesystemAggregateFamily? ==>
              LastEffect(LustreRows(m), s) == LastEffect(MapRows(m.aggregates, AggregateRow), s)
    ensures s.gauge.family.FilesystemInfoFamily? || s.gauge.family.FilesystemCapacityFamily? ==>
              LastEffect(LustreRows(m), s) == LastEffect(FilesystemRows(m.filesystems), s)
  {
    var a := FilesystemRows(m.filesystems);
    var b := a + MapRows(m.aggregates, AggregateRow);
    var c := b + MapRows(m.osts, OstRow);
    var d := c + MapRows(m.ostOperations, OstOperationRow);
    var f := d + MapRows(m.mdts, MdtRow);
    LastEffectConcat(a, MapRows(m.aggregates, AggregateRow), s);
    LastEffectConcat(b, MapRows(m.osts, OstRow), s);
    LastEffectConcat(c, MapRows(m.ostOperations, OstOperationRow), s);
    LastEffectConcat(d, MapRows(m.mdts, MdtRow), s);
    LastEffectConcat(f, MapRows(m.mdtOperations, MdtOperationRow), s);
    PartsKeep(m, s);
  }

  lemma PartsKeep(m: LustreSamples, s: Series)
    ensures !s.gauge.family.OstFamily? ==> LastEffect(MapRows(m.osts, OstRow), s).Keep?
    ensures !s.gauge.family.OstOperationFamily? ==> LastEffect(MapRows(m.ostOperations, OstOperationRow), s).Keep?
    ensures !s.gauge.family.MdtFamily? ==> LastEffect(MapRows(m.mdts, MdtRow), s).Keep?
    ensures !s.gauge.family.MdtOperationFamily? ==> LastEffect(MapRows(m.mdtOperations, MdtOperationRow), s).Keep?
    ensures !s.gauge.family.FilesystemAggregateFamily? ==> LastEffect(MapRows(m.aggregates, AggregateRow), s).Keep?
    ensures !s.gauge.family.FilesystemInfoFamily? && !s.gauge.family.FilesystemCapacityFamily? ==>
              LastEffect(FilesystemRows(m.filesystems), s).Keep?
  {
    OstRowsGood(m.osts);
    FamilyKeeps(MapRows(m.osts, OstRow), OstFamily, s);
    OstOperationRowsGood(m.ostOperations);
    FamilyKeeps(MapRows(m.ostOperations, OstOperationRow), OstOperationFamily, s);
    MdtRowsGood(m.mdts);
    FamilyKeeps(MapRows(m.mdts, MdtRow), MdtFamily, s);
    MdtOperationRowsGood(m.mdtOperations);
    FamilyKeeps(MapRows(m.mdtOperations, MdtOperationRow), MdtOperationFamily, s);
    AggregateRowsGood(m.aggregates);
    FamilyKeeps(MapRows(m.aggregates, AggregateRow), FilesystemAggregateFamily, s);
    FilesystemPartKeeps(m.filesystems, s);
  }

  lemma FamilyKeeps(rows: seq<Row>, family: Family, s: Series)
    requires AllGood(rows, family)
    ensures family != s.gauge.family ==> LastEffect(rows, s).Keep?
  {
    if family != s.gauge.family {
      assert forall i | 0 <= i < |rows| :: rows[i] in rows;
      OtherFamilyKeeps(rows, s);
    }
  }

  lemma {:induction false} FilesystemPartKeeps(filesystems: seq<Filesystem>, s: Series)
    ensures !s.gauge.family.FilesystemInfoFamily? && !s.gauge.family.FilesystemCapacityFamily? ==>
              LastEffect(FilesystemRows(filesystems), s).Keep?
  {
    if filesystems == [] {
    } else {
      var n := |filesystems| - 1;
      var rows := [FilesystemInfoRow(filesystems[n]), FilesystemCapacityRow(filesystems[n])];
      FilesystemPartKeeps(filesystems[..n], s);
      LastEffectConcat(FilesystemRows(filesystems[..n]), rows, s);
      if !s.gauge.family.FilesystemInfoFamily? && !s.gauge.family.FilesystemCapacityFamily? {
        OtherFamilyKeeps(rows, s);
      }
    }
  }

  // ---------------------------------------------------------------- Managed Lustre

  /** A Lustre update of an exporter in any state. */
  datatype LustreUpdate = LustreUpdate(cap: int, exporter: Exporter, samples: LustreSamples, removeStale: bool)
  {
    /** Only a leader, or an exporter without election, writes. */
    predicate Permitted() { exporter.electionEnabled ==> exporter.leader }

    function Before(gauge: Gauge, labels: Labels): Option<real> {
      Lookup(exporter.store.series, Series(gauge, labels))
    }

    /** The value of a gauge after the update. */
    function Shown(gauge: Gauge, labels: Labels): Option<real> {
      Lookup(Step(cap, exporter, UpdateLustre(samples, removeStale)).store.series, Series(gauge, labels))
    }

    /** The gauge shows part * 100 / total, or nothing without both figures and a positive total. */
    predicate ShowsPercent(gauge: Gauge, labels: Labels, part: Option<real>, total: Option<real>) {
      Shown(gauge, labels) ==
      if part.Some? && total.Some? && total.value > 0.0 then Some(part.value * 100.0 / total.value) else None
    }
  }

  /** What an effect on a gauge leaves there. */
  predicate Leaves(effect: Effect, shown: Option<real>) {
    match effect
    case Set(v) => shown == Some(v)
    case Remove => shown == None
    case Keep => true
  }

  /** The last sample of its labels decides the gauges of its family. */
  lemma RowShown<T>(u: LustreUpdate, samples: seq<T>, row: T -> Row, i: nat, k: nat)
    requires u.Permitted() && i < |samples| && k < |row(samples[i]).readings| && GoodRow(row(samples[i]))
    requires forall j | i < j < |samples| :: row(samples[j]).labels != row(samples[i]).labels
    requires var s := Series(Gauge(row(samples[i]).family, k), row(samples[i]).labels);
             LastEffect(LustreRows(u.samples), s) == LastEffect(MapRows(samples, row), s)
    ensures var r := row(samples[i]);
            Leaves(r.readings[k].1, u.Shown(Gauge(r.family, k), r.labels))
  {
    var r := row(samples[i]);
    var s := Series(Gauge(r.family, k), r.labels);
    EffectAt(r, k);
    MapLast(samples, row, i, s);
    Published(u.exporter.store, LustreBatch(u.samples), u.removeStale, s);
  }

  lemma PercentMeaning(part: Option<real>, total: Option<real>)
    ensures Percent(part, total) ==
            if part.Some? && total.Some? && total.value > 0.0 then Some(part.value * 100.0 / total.value) else None
  {
    if part.Some? && total.Some? && total.value > 0.0 {
      var x, y := part.value / total.value * 100.0, part.value * 100.0 / total.value;
      assert x * total.value == part.value / total.value * total.value * 100.0 == y * total.value;
      Cancel(x, y, total.value);
      Cancel(y, x, total.value);
    }
  }

  /** A sample whose labels no later sample of its kind has. */
  ghost predicate LastOst(u: LustreUpdate, i: nat) {
    i < |u.samples.osts|
    && forall j | i < j < |u.samples.osts| :: u.samples.osts[j].LabelValues() != u.samples.osts[i].LabelValues()
  }

  lemma OstShown(u: LustreUpdate, i: nat, k: nat)
    requires u.Permitted() && LastOst(u, i) && k < 11
    ensures var m := u.samples.osts[i];
            Leaves(OstRow(m).readings[k].1, u.Shown(Gauge(OstFamily, k), m.LabelValues()))
  {
    OstRowGood(u.samples.osts[i]);
    OwnPart(u.samples, Series(Gauge(OstFamily, k), u.samples.osts[i].LabelValues()));
    RowShown(u, u.samples.osts, OstRow, i, k);
  }

  /** The space gauges of an OST. */
  lemma OstSpaceFigures(u: LustreUpdate, i: nat)
    requires u.Permitted() && LastOst(u, i)
    ensures var m := u.samples.osts[i];
            var labels := [m.subscriptionId, m.resourceGroup, m.filesystemName, m.location, m.ostnum];
            && u.Shown(OST_BYTES_AVAILABLE, labels) == m.bytesAvailable
            && u.Shown(OST_BYTES_USED, labels) == m.bytesUsed
            && u.Shown(OST_BYTES_TOTAL, labels) == m.bytesTotal
            && u.ShowsPercent(OST_BYTES_AVAILABLE_PERCENT, labels, m.bytesAvailable, m.bytesTotal)
            && u.ShowsPercent(OST_BYTES_USED_PERCENT, labels, m.bytesUsed, m.bytesTotal)
  {
    var m := u.samples.osts[i];
    PercentMeaning(m.bytesAvailable, m.bytesTotal);
    PercentMeaning(m.bytesUsed, m.bytesTotal);
    OstShown(u, i, 0);
    OstShown(u, i, 1);
    OstShown(u, i, 2);
    OstShown(u, i, 3);
    OstShown(u, i, 4);
  }

  /** The client gauges of an OST. */
  lemma OstClientFigures(u: LustreUpdate, i: nat)
    requires u.Permitted() && LastOst(u, i)
    ensures var m := u.samples.osts[i];
            var labels := [m.subscriptionId, m.resourceGroup, m.filesystemName, m.location, m.ostnum];
            && u.Shown(CLIENT_READ_OPS, labels) == m.clientReadOps
            && u.Shown(CLIENT_READ_THROUGHPUT, labels) == m.clientReadThroughput
            && u.Shown(CLIENT_WRITE_OPS, labels) == m.clientWriteOps
            && u.Shown(CLIENT_WRITE_THROUGHPUT, labels) == m.clientWriteThroughput
            && u.Shown(OST_CONNECTED_CLIENTS, labels) == m.connectedClients
  {
    OstShown(u, i, 5);
    OstShown(u, i, 6);
    OstShown(u, i, 7);
    OstShown(u, i, 8);
    OstShown(u, i, 9);
  }

  /** A sample whose labels no later sample of its kind has. */
  ghost predicate LastOstOperation(u: LustreUpdate, i: nat) {
    i < |u.samples.ostOperations|
    && forall j | i < j < |u.samples.ostOperations| ::
         u.samples.ostOperations[j].LabelValues() != u.samples.ostOperations[i].LabelValues()
  }

  lemma OstOperationShown(u: LustreUpdate, i: nat, k: nat)
    requires u.Permitted() && LastOstOperation(u, i) && k < 3
    ensures var m := u.samples.ostOperations[i];
            Leaves(OstOperationRow(m).readings[k].1, u.Shown(Gauge(OstOperationFamily, k), m.LabelValues()))
  {
    OwnPart(u.samples, Series(Gauge(OstOperationFamily, k), u.samples.ostOperations[i].LabelValues()));
    RowShown(u, u.samples.ostOperations, OstOperationRow, i, k);
  }

  /** The gauges of one operation on an OST. */
  lemma OstOperationFigures(u: LustreUpdate, i: nat)
    requires u.Permitted() && LastOstOperation(u, i)
    ensures var m := u.samples.ostOperations[i];
            var labels := [m.subscriptionId, m.resourceGroup, m.filesystemName, m.location, m.ostnum, m.operation];
            && u.Shown(OST_CLIENT_LATENCY, labels) == m.clientLatency
            && u.Shown(OST_CLIENT_OPS, labels) == m.clientOps
  {
    OstOperationShown(u, i, 0);
    OstOperationShown(u, i, 1);
  }

  /** A sample whose labels no later sample of its kind has. */
  ghost predicate LastMdt(u: LustreUpdate, i: nat) {
    i < |u.samples.mdts|
    && forall j | i < j < |u.samples.mdts| :: u.samples.mdts[j].LabelValues() != u.samples.mdts[i].LabelValues()
  }

  lemma MdtShown(u: LustreUpdate, i: nat, k: nat)
    requires u.Permitted() && LastMdt(u, i) && k < 15
    ensures var m := u.samples.mdts[i];
            Leaves(MdtRow(m).readings[k].1, u.Shown(Gauge(MdtFamily, k), m.LabelValues()))
  {
    MdtRowGood(u.samples.mdts[i]);
    OwnPart(u.samples, Series(Gauge(MdtFamily, k), u.samples.mdts[i].LabelValues()));
    RowShown(u, u.samples.mdts, MdtRow, i, k);
  }

  /** The space gauges of an MDT. */
  lemma MdtSpaceFigures(u: LustreUpdate, i: nat)
    requires u.Permitted() && LastMdt(u, i)
    ensures var m := u.samples.mdts[i];
            var labels := [m.subscriptionId, m.resourceGroup, m.filesystemName, m.location, m.mdtnum];
            && u.Shown(MDT_BYTES_AVAILABLE, labels) == m.bytesAvailable
            && u.Shown(MDT_BYTES_USED, labels) == m.bytesUsed
            && u.Shown(MDT_BYTES_TOTAL, labels) == m.bytesTotal
            && u.ShowsPercent(MDT_BYTES_AVAILABLE_PERCENT, labels, m.bytesAvailable, m.bytesTotal)
            && u.ShowsPercent(MDT_BYTES_USED_PERCENT, labels, m.bytesUsed, m.bytesTotal)
  {
    var m := u.samples.mdts[i];
    PercentMeaning(m.bytesAvailable, m.bytesTotal);
    PercentMeaning(m.bytesUsed, m.bytesTotal);
    MdtShown(u, i, 0);
    MdtShown(u, i, 1);
    MdtShown(u, i, 2);
    MdtShown(u, i, 3);
    MdtShown(u, i, 4);
  }

  /** The file gauges of an MDT. */
  lemma MdtFileFigures(u: LustreUpdate, i: nat)
    requires u.Permitted() && LastMdt(u, i)
    ensures var m := u.samples.mdts[i];
            var labels := [m.subscriptionId, m.resourceGroup, m.filesystemName, m.location, m.mdtnum];
            && u.Shown(MDT_FILES_FREE, labels) == m.filesFree
            && u.Shown(MDT_FILES_USED, labels) == m.filesUsed
            && u.Shown(MDT_FILES_TOTAL, labels) == m.filesTotal
            && u.ShowsPercent(MDT_FILES_FREE_PERCENT, labels, m.filesFree, m.filesTotal)
            && u.ShowsPercent(MDT_FILES_USED_PERCENT, labels, m.filesUsed, m.filesTotal)
  {
    var m := u.samples.mdts[i];
    PercentMeaning(m.filesFree, m.filesTotal);
    PercentMeaning(m.filesUsed, m.filesTotal);
    MdtShown(u, i, 5);
    MdtShown(u, i, 6);
    MdtShown(u, i, 7);
    MdtShown(u, i, 8);
    MdtShown(u, i, 9);
  }

  /** The activity gauges of an MDT. */
  lemma MdtActivityFigures(u: LustreUpdate, i: nat)
    requires u.Permitted() && LastMdt(u, i)
    ensures var m := u.samples.mdts[i];
            var labels := [m.subscriptionId, m.resourceGroup, m.filesystemName, m.location, m.mdtnum];
            && u.Shown(HSM_ACTION_ERRORS, labels) == m.hsmActionErrors
            && u.Shown(HSM_CURRENT_REQUESTS, labels) == m.hsmCurrentRequests
            && u.Shown(MDT_CLIENT_EVICTIONS, labels) == m.clientEvictions
            && u.Shown(MDT_CONNECTED_CLIENTS, labels) == m.connectedClients
  {
    MdtShown(u, i, 10);
    MdtShown(u, i, 11);
    MdtShown(u, i, 12);
    MdtShown(u, i, 13);
  }

  /** A sample whose labels no later sample of its kind has. */
  ghost predicate LastMdtOperation(u: LustreUpdate, i: nat) {
    i < |u.samples.mdtOperations|
    && forall j | i < j < |u.samples.mdtOperations| ::
         u.samples.mdtOperations[j].LabelValues() != u.samples.mdtOperations[i].LabelValues()
  }

  lemma MdtOperationShown(u: LustreUpdate, i: nat, k: nat)
    requires u.Permitted() && LastMdtOperation(u, i) && k < 3
    ensures var m := u.samples.mdtOperations[i];
            Leaves(MdtOperationRow(m).readings[k].1, u.Shown(Gauge(MdtOperationFamily, k), m.LabelValues()))
  {
    OwnPart(u.samples, Series(Gauge(MdtOperationFamily, k), u.samples.mdtOperations[i].LabelValues()));
    RowShown(u, u.samples.mdtOperations, MdtOperationRow, i, k);
  }

  /** The gauges of one operation on an MDT. */
  lemma MdtOperationFigures(u: LustreUpdate, i: nat)
    requires u.Permitted() && LastMdtOperation(u, i)
    ensures var m := u.samples.mdtOperations[i];
            var labels := [m.subscriptionId, m.resourceGroup, m.filesystemName, m.location, m.mdtnum, m.operation];
            && u.Shown(MDT_CLIENT_LATENCY, labels) == m.clientLatency
            && u.Shown(MDT_CLIENT_OPS, labels) == m.clientOps
  {
    MdtOperationShown(u, i, 0);
    MdtOperationShown(u, i, 1);
  }

  /** A sample whose labels no later sample of its kind has. */
  ghost predicate LastAggregate(u: LustreUpdate, i: nat) {
    i < |u.samples.aggregates|
    && forall j | i < j < |u.samples.aggregates| :: u.samples.aggregates[j].key != u.samples.aggregates[i].key
  }

  lemma AggregateRowGood(m: AggregateMetric)
    ensures GoodRow(AggregateRow(m))
  {}

  lemma AggregateShown(u: LustreUpdate, i: nat, k: nat)
    requires u.Permitted() && LastAggregate(u, i) && k < 4
    ensures var m := u.samples.aggregates[i];
            Leaves(AggregateRow(m).readings[k].1, u.Shown(Gauge(FilesystemAggregateFamily, k), m.key))
  {
    AggregateRowGood(u.samples.aggregates[i]);
    OwnPart(u.samples, Series(Gauge(FilesystemAggregateFamily, k), u.samples.aggregates[i].key));
    RowShown(u, u.samples.aggregates, AggregateRow, i, k);
  }

  /** The aggregate gauges of a filesystem. */
  lemma AggregateFigures(u: LustreUpdate, i: nat)
    requires u.Permitted() && LastAggregate(u, i)
    ensures var m := u.samples.aggregates[i];
            var labels := m.key;
            && u.Shown(FILESYSTEM_CONNECTED_CLIENTS, labels) == m.connectedClients
            && u.Shown(FILESYSTEM_CLIENT_EVICTIONS, labels) == m.clientEvictions
            && u.Shown(METADATA_AMPLIFICATION_RATIO, labels) == m.metadataAmplificationRatio
            && u.Shown(FILESYSTEM_SAMPLE_MAX_AGE, labels) == m.sampleMaxAge
  {
    AggregateShown(u, i, 0);
    AggregateShown(u, i, 1);
    AggregateShown(u, i, 2);
    AggregateShown(u, i, 3);
  }

  /** The last writer of a series decides it. */
  lemma LastWriterShown<T>(u: LustreUpdate, samples: seq<T>, row: T -> Row, i: nat, s: Series)
    requires u.Permitted() && i < |samples|
    requires LastEffect(LustreRows(u.samples), s) == LastEffect(MapRows(samples, row), s)
    requires RowEffect(row(samples[i]), s).Set? && forall j | i < j < |samples| :: RowEffect(row(samples[j]), s).Keep?
    ensures u.Shown(s.gauge, s.labels) == Some(RowEffect(row(samples[i]), s).value)
  {
    Published(u.exporter.store, LustreBatch(u.samples), u.removeStale, s);
    MapLast(samples, row, i, s);
  }

  /** A reported series without a writer keeps its value. */
  lemma NoWriterKeeps(u: LustreUpdate, s: Series)
    requires u.Permitted() && ActiveOf(s) in Reported(LustreBatch(u.samples).rows)
    requires LastEffect(LustreBatch(u.samples).rows, s).Keep?
    ensures u.Shown(s.gauge, s.labels) == u.Before(s.gauge, s.labels)
  {
    ReportedKept(u.exporter.store, LustreBatch(u.samples), u.removeStale, s);
  }

  // ---------------------------------------------------------------- labels reported

  lemma {:induction false} MapReported<T>(samples: seq<T>, row: T -> Row)
    ensures Reported(MapRows(samples, row)) == set x | x in samples :: Active(row(x).family, row(x).labels)
  {
    if samples == [] {
    } else {
      var n := |samples| - 1;
      MapReported(samples[..n], row);
      ReportedConcat(MapRows(samples[..n], row), [row(samples[n])]);
      assert samples == samples[..n] + [samples[n]];
    }
  }

  lemma {:induction false} FilesystemsReported(filesystems: seq<Filesystem>)
    ensures Reported(FilesystemRows(filesystems))
         == (set x | x in filesystems :: Active(FilesystemInfoFamily, x.InfoLabelValues()))
          + (set x | x in filesystems :: Active(FilesystemCapacityFamily, x.CapacityLabelValues()))
  {
    if filesystems == [] {
    } else {
      var n := |filesystems| - 1;
      FilesystemsReported(filesystems[..n]);
      ReportedConcat(FilesystemRows(filesystems[..n]),
                     [FilesystemInfoRow(filesystems[n]), FilesystemCapacityRow(filesystems[n])]);
      assert filesystems == filesystems[..n] + [filesystems[n]];
    }
  }

  lemma PartsReported(m: LustreSamples, a: Active)
    ensures a in Reported(LustreRows(m)) <==>
            || a in Reported(FilesystemRows(m.filesystems))
            || a in Reported(MapRows(m.aggregates, AggregateRow))
            || a in Reported(MapRows(m.osts, OstRow)) || a in Reported(MapRows(m.ostOperations, OstOperationRow))
            || a in Reported(MapRows(m.mdts, MdtRow)) || a in Reported(MapRows(m.mdtOperations, MdtOperationRow))
  {
    var fs := FilesystemRows(m.filesystems) + MapRows(m.aggregates, AggregateRow);
    var osts := fs + MapRows(m.osts, OstRow) + MapRows(m.ostOperations, OstOperationRow);
    ReportedConcat(osts + MapRows(m.mdts, MdtRow), MapRows(m.mdtOperations, MdtOperationRow));
    ReportedConcat(osts, MapRows(m.mdts, MdtRow));
    ReportedConcat(fs + MapRows(m.osts, OstRow), MapRows(m.ostOperations, OstOperationRow));
    ReportedConcat(fs, MapRows(m.osts, OstRow));
    ReportedConcat(FilesystemRows(m.filesystems), MapRows(m.aggregates, AggregateRow));
  }

  lemma LustreReported(m: LustreSamples, a: Active)
    ensures a in Reported(LustreRows(m)) <==>
            match a.family
            case OstFamily => exists x | x in m.osts :: a.labels == x.LabelValues()
            case OstOperationFamily => exists x | x in m.ostOperations :: a.labels == x.LabelValues()
            case MdtFamily => exists x | x in m.mdts :: a.labels == x.LabelValues()
            case MdtOperationFamily => exists x | x in m.mdtOperations :: a.labels == x.LabelValues()
            case FilesystemAggregateFamily => exists x | x in m.aggregates :: a.labels == x.key
            case FilesystemInfoFamily => exists x | x in m.filesystems :: a.labels == x.InfoLabelValues()
            case FilesystemCapacityFamily => exists x | x in m.filesystems :: a.labels == x.CapacityLabelValues()
            case _ => false
  {
    PartsReported(m, a);
    FilesystemsReported(m.filesystems);
    MapReported(m.aggregates, AggregateRow);
    MapReported(m.osts, OstRow);
    MapReported(m.ostOperations, OstOperationRow);
    MapReported(m.mdts, MdtRow);
    MapReported(m.mdtOperations, MdtOperationRow);
  }

  /** The labels an update reports for OSTs and MDTs. */
  lemma TargetsReported(m: LustreSamples, labels: Labels)
    ensures Active(OstFamily, labels) in Reported(LustreRows(m)) <==>
            exists x | x in m.osts ::
              labels == [x.subscriptionId, x.resourceGroup, x.filesystemName, x.location, x.ostnum]
    ensures Active(MdtFamily, labels) in Reported(LustreRows(m)) <==>
            exists x | x in m.mdts ::
              labels == [x.subscriptionId, x.resourceGroup, x.filesystemName, x.location, x.mdtnum]
  {
    LustreReported(m, Active(OstFamily, labels));
    LustreReported(m, Active(MdtFamily, labels));
  }

  /** The labels an update reports for operations. */
  lemma OperationsReported(m: LustreSamples, labels: Labels)
    ensures Active(OstOperationFamily, labels) in Reported(LustreRows(m)) <==>
            exists x | x in m.ostOperations ::
              labels == [x.subscriptionId, x.resourceGroup, x.filesystemName, x.location, x.ostnum, x.operation]
    ensures Active(MdtOperationFamily, labels) in Reported(LustreRows(m)) <==>
            exists x | x in m.mdtOperations ::
              labels == [x.subscriptionId, x.resourceGroup, x.filesystemName, x.location, x.mdtnum, x.operation]
  {
    LustreReported(m, Active(OstOperationFamily, labels));
    LustreReported(m, Active(MdtOperationFamily, labels));
  }

  /** The labels an update reports for filesystems. */
  lemma FilesystemLabelsReported(m: LustreSamples, labels: Labels)
    ensures Active(FilesystemAggregateFamily, labels) in Reported(LustreRows(m)) <==>
            exists x | x in m.aggregates :: labels == x.key
    ensures Active(FilesystemInfoFamily, labels) in Reported(LustreRows(m)) <==>
            exists x | x in m.filesystems ::
              labels == [x.subscriptionId, x.resourceGroup, x.filesystemName, x.location, x.skuTier]
    ensures Active(FilesystemCapacityFamily, labels) in Reported(LustreRows(m)) <==>
            exists x | x in m.filesystems ::
              labels == [x.subscriptionId, x.resourceGroup, x.filesystemName, x.location]
  {
    LustreReported(m, Active(FilesystemAggregateFamily, labels));
    LustreReported(m, Active(FilesystemInfoFamily, labels));
    LustreReported(m, Active(FilesystemCapacityFamily, labels));
  }

  /** Labels that no sample has: gone after an error-free update, as before after a partial one. */
  lemma UnreportedShown(u: LustreUpdate, gauge: Gauge, labels: Labels)
    requires u.Permitted() && Indexed(u.exporter.store) && gauge.family in LUSTRE_FAMILIES
    requires Active(gauge.family, labels) !in Reported(LustreRows(u.samples))
    ensures u.Shown(gauge, labels) == if u.removeStale then None else u.Before(gauge, labels)
  {
    var s := Series(gauge, labels);
    LustreBatchGood(u.samples);
    Published(u.exporter.store, LustreBatch(u.samples), u.removeStale, s);
    LastEffectReported(LustreRows(u.samples), s);
  }

  // ---------------------------------------------------------------- sample timestamps

  lemma OstStampEffect(m: OstMetric, labels: Labels)
    ensures RowEffect(OstRow(m), Series(OST_SAMPLE_TIMESTAMP, labels))
         == if m.LabelValues() == labels then SetOrKeep(m.sampleTimestamp) else Keep
  {
    if m.LabelValues() == labels {
      OstRowGood(m);
      EffectAt(OstRow(m), 10);
    }
  }

  /** The sample timestamp of an OST: the last one reported for its labels, or else the value before. */
  lemma OstFreshness(u: LustreUpdate, i: nat)
    requires u.Permitted() && i < |u.samples.osts|
    ensures var xs, m := u.samples.osts, u.samples.osts[i];
            var labels := [m.subscriptionId, m.resourceGroup, m.filesystemName, m.location, m.ostnum];
            && (m.sampleTimestamp.Some?
                && (forall j | i < j < |xs| && xs[j].LabelValues() == m.LabelValues() :: xs[j].sampleTimestamp.None?)
                ==> u.Shown(OST_SAMPLE_TIMESTAMP, labels) == m.sampleTimestamp)
            && ((forall j | 0 <= j < |xs| && xs[j].LabelValues() == m.LabelValues() :: xs[j].sampleTimestamp.None?)
                ==> u.Shown(OST_SAMPLE_TIMESTAMP, labels) == u.Before(OST_SAMPLE_TIMESTAMP, labels))
  {
    var xs, m := u.samples.osts, u.samples.osts[i];
    var s := Series(OST_SAMPLE_TIMESTAMP, m.LabelValues());
    OwnPart(u.samples, s);
    LustreReported(u.samples, ActiveOf(s));
    forall j | 0 <= j < |xs|
      ensures RowEffect(OstRow(xs[j]), s)
           == if xs[j].LabelValues() == m.LabelValues() then SetOrKeep(xs[j].sampleTimestamp) else Keep
    {
      OstStampEffect(xs[j], m.LabelValues());
    }
    if m.sampleTimestamp.Some? && forall j | i < j < |xs| :: RowEffect(OstRow(xs[j]), s).Keep? {
      LastWriterShown(u, xs, OstRow, i, s);
    }
    if forall j | 0 <= j < |xs| :: RowEffect(OstRow(xs[j]), s).Keep? {
      MapNone(xs, OstRow, s);
      NoWriterKeeps(u, s);
    }
  }

  lemma OstOperationStampEffect(m: OstOperationMetric, labels: Labels)
    ensures RowEffect(OstOperationRow(m), Series(OST_OPERATION_SAMPLE_TIMESTAMP, labels))
         == if m.LabelValues() == labels then SetOrKeep(m.sampleTimestamp) else Keep
  {
    if m.LabelValues() == labels {
      EffectAt(OstOperationRow(m), 2);
    }
  }

  /** The sample timestamp of an operation on an OST: the last one reported for its labels, or else the value before. */
  lemma OstOperationFreshness(u: LustreUpdate, i: nat)
    requires u.Permitted() && i < |u.samples.ostOperations|
    ensures var xs, m := u.samples.ostOperations, u.samples.ostOperations[i];
            var labels := [m.subscriptionId, m.resourceGroup, m.filesystemName, m.location, m.ostnum, m.operation];
            && (m.sampleTimestamp.Some?
                && (forall j | i < j < |xs| && xs[j].LabelValues() == m.LabelValues() :: xs[j].sampleTimestamp.None?)
                ==> u.Shown(OST_OPERATION_SAMPLE_TIMESTAMP, labels) == m.sampleTimestamp)
            && ((forall j | 0 <= j < |xs| && xs[j].LabelValues() == m.LabelValues() :: xs[j].sampleTimestamp.None?)
                ==> u.Shown(OST_OPERATION_SAMPLE_TIMESTAMP, labels) == u.Before(OST_OPERATION_SAMPLE_TIMESTAMP, labels))
  {
    var xs, m := u.samples.ostOperations, u.samples.ostOperations[i];
    var s := Series(OST_OPERATION_SAMPLE_TIMESTAMP, m.LabelValues());
    OwnPart(u.samples, s);
    LustreReported(u.samples, ActiveOf(s));
    forall j | 0 <= j < |xs|
      ensures RowEffect(OstOperationRow(xs[j]), s)
           == if xs[j].LabelValues() == m.LabelValues() then SetOrKeep(xs[j].sampleTimestamp) else Keep
    {
      OstOperationStampEffect(xs[j], m.LabelValues());
    }
    if m.sampleTimestamp.Some? && forall j | i < j < |xs| :: RowEffect(OstOperationRow(xs[j]), s).Keep? {
      LastWriterShown(u, xs, OstOperationRow, i, s);
    }
    if forall j | 0 <= j < |xs| :: RowEffect(OstOperationRow(xs[j]), s).Keep? {
      MapNone(xs, OstOperationRow, s);
      NoWriterKeeps(u, s);
    }
  }

  lemma MdtStampEffect(m: MdtMetric, labels: Labels)
    ensures RowEffect(MdtRow(m), Series(MDT_SAMPLE_TIMESTAMP, labels))
         == if m.LabelValues() == labels then SetOrKeep(m.sampleTimestamp) else Keep
  {
    if m.LabelValues() == labels {
      MdtRowGood(m);
      EffectAt(MdtRow(m), 14);
    }
  }

  /** The sample timestamp of an MDT: the last one reported for its labels, or else the value before. */
  lemma MdtFreshness(u: LustreUpdate, i: nat)
    requires u.Permitted() && i < |u.samples.mdts|
    ensures var xs, m := u.samples.mdts, u.samples.mdts[i];
            var labels := [m.subscriptionId, m.resourceGroup, m.filesystemName, m.location, m.mdtnum];
            && (m.sampleTimestamp.Some?
                && (forall j | i < j < |xs| && xs[j].LabelValues() == m.LabelValues() :: xs[j].sampleTimestamp.None?)
                ==> u.Shown(MDT_SAMPLE_TIMESTAMP, labels) == m.sampleTimestamp)
            && ((forall j | 0 <= j < |xs| && xs[j].LabelValues() == m.LabelValues() :: xs[j].sampleTimestamp.None?)
                ==> u.Shown(MDT_SAMPLE_TIMESTAMP, labels) == u.Before(MDT_SAMPLE_TIMESTAMP, labels))
  {
    var xs, m := u.samples.mdts, u.samples.mdts[i];
    var s := Series(MDT_SAMPLE_TIMESTAMP, m.LabelValues());
    OwnPart(u.samples, s);
    LustreReported(u.samples, ActiveOf(s));
    forall j | 0 <= j < |xs|
      ensures RowEffect(MdtRow(xs[j]), s)
           == if xs[j].LabelValues() == m.LabelValues() then SetOrKeep(xs[j].sampleTimestamp) else Keep
    {
      MdtStampEffect(xs[j], m.LabelValues());
    }
    if m.sampleTimestamp.Some? && forall j | i < j < |xs| :: RowEffect(MdtRow(xs[j]), s).Keep? {
      LastWriterShown(u, xs, MdtRow, i, s);
    }
    if forall j | 0 <= j < |xs| :: RowEffect(MdtRow(xs[j]), s).Keep? {
      MapNone(xs, MdtRow, s);
      NoWriterKeeps(u, s);
    }
  }

  lemma MdtOperationStampEffect(m: MdtOperationMetric, labels: Labels)
    ensures RowEffect(MdtOperationRow(m), Series(MDT_OPERATION_SAMPLE_TIMESTAMP, labels))
         == if m.LabelValues() == labels then SetOrKeep(m.sampleTimestamp) else Keep
  {
    if m.LabelValues() == labels {
      EffectAt(MdtOperationRow(m), 2);
    }
  }

  /** The sample timestamp of an operation on an MDT: the last one reported for its labels, or else the value before. */
  lemma MdtOperationFreshness(u: LustreUpdate, i: nat)
    requires u.Permitted() && i < |u.samples.mdtOperations|
    ensures var xs, m := u.samples.mdtOperations, u.samples.mdtOperations[i];
            var labels := [m.subscriptionId, m.resourceGroup, m.filesystemName, m.location, m.mdtnum, m.operation];
            && (m.sampleTimestamp.Some?
                && (forall j | i < j < |xs| && xs[j].LabelValues() == m.LabelValues() :: xs[j].sampleTimestamp.None?)
                ==> u.Shown(MDT_OPERATION_SAMPLE_TIMESTAMP, labels) == m.sampleTimestamp)
            && ((forall j | 0 <= j < |xs| && xs[j].LabelValues() == m.LabelValues() :: xs[j].sampleTimestamp.None?)
                ==> u.Shown(MDT_OPERATION_SAMPLE_TIMESTAMP, labels) == u.Before(MDT_OPERATION_SAMPLE_TIMESTAMP, labels))
  {
    var xs, m := u.samples.mdtOperations, u.samples.mdtOperations[i];
    var s := Series(MDT_OPERATION_SAMPLE_TIMESTAMP, m.LabelValues());
    OwnPart(u.samples, s);
    LustreReported(u.samples, ActiveOf(s));
    forall j | 0 <= j < |xs|
      ensures RowEffect(MdtOperationRow(xs[j]), s)
           == if xs[j].LabelValues() == m.LabelValues() then SetOrKeep(xs[j].sampleTimestamp) else Keep
    {
      MdtOperationStampEffect(xs[j], m.LabelValues());
    }
    if m.sampleTimestamp.Some? && forall j | i < j < |xs| :: RowEffect(MdtOperationRow(xs[j]), s).Keep? {
      LastWriterShown(u, xs, MdtOperationRow, i, s);
    }
    if forall j | 0 <= j < |xs| :: RowEffect(MdtOperationRow(xs[j]), s).Keep? {
      MapNone(xs, MdtOperationRow, s);
      NoWriterKeeps(u, s);
    }
  }

  // ---------------------------------------------------------------- filesystems

  lemma FilesystemEffect(f: Filesystem, labels: Labels)
    ensures var rows := [FilesystemInfoRow(f), FilesystemCapacityRow(f)];
            && LastEffect(rows, Series(FILESYSTEM_INFO, labels))
               == (if f.InfoLabelValues() == labels then Set(1.0) else Keep)
            && LastEffect(rows, Series(DISCOVERED_FILESYSTEM_INFO, labels))
               == (if f.InfoLabelValues() == labels then Set(1.0) else Keep)
            && LastEffect(rows, Series(FILESYSTEM_STORAGE_CAPACITY, labels))
               == (if f.CapacityLabelValues() == labels then Set(f.storageCapacityTib) else Keep)
  {
    var info, capacity := FilesystemInfoRow(f), FilesystemCapacityRow(f);
    LastEffectPair(info, capacity, Series(FILESYSTEM_INFO, labels));
    LastEffectPair(info, capacity, Series(DISCOVERED_FILESYSTEM_INFO, labels));
    LastEffectPair(info, capacity, Series(FILESYSTEM_STORAGE_CAPACITY, labels));
    EffectAt(info, 0);
    EffectAt(info, 1);
    EffectAt(capacity, 0);
  }

  /** Of two rows of different families, the one of the series' family decides. */
  lemma LastEffectPair(x: Row, y: Row, s: Series)
    requires GoodRow(x) && GoodRow(y) && x.family != y.family
    ensures s.gauge.family == x.family ==> LastEffect([x, y], s) == RowEffect(x, s)
    ensures s.gauge.family == y.family ==> LastEffect([x, y], s) == RowEffect(y, s)
  {
    assert [x, y] == [x] + [y];
    LastEffectConcat([x], [y], s);
    assert [x][..0] == [] && [y][..0] == [];
    if s.gauge.family == x.family {
      OtherFamilyKeeps([y], s);
    } else if s.gauge.family == y.family {
      OtherFamilyKeeps([x], s);
    }
  }

  lemma {:induction false} FilesystemLast(filesystems: seq<Filesystem>, i: nat)
    requires i < |filesystems|
    ensures var rows, f := FilesystemRows(filesystems), filesystems[i];
            && LastEffect(rows, Series(FILESYSTEM_INFO, f.InfoLabelValues())) == Set(1.0)
            && LastEffect(rows, Series(DISCOVERED_FILESYSTEM_INFO, f.InfoLabelValues())) == Set(1.0)
            && ((forall j | i < j < |filesystems| :: filesystems[j].CapacityLabelValues() != f.CapacityLabelValues())
                ==> LastEffect(rows, Series(FILESYSTEM_STORAGE_CAPACITY, f.CapacityLabelValues()))
                    == Set(f.storageCapacityTib))
  {
    var n, f := |filesystems| - 1, filesystems[i];
    var init := FilesystemRows(filesystems[..n]);
    var last := [FilesystemInfoRow(filesystems[n]), FilesystemCapacityRow(filesystems[n])];
    FilesystemEffect(filesystems[n], f.InfoLabelValues());
    FilesystemEffect(filesystems[n], f.CapacityLabelValues());
    LastEffectConcat(init, last, Series(FILESYSTEM_INFO, f.InfoLabelValues()));
    LastEffectConcat(init, last, Series(DISCOVERED_FILESYSTEM_INFO, f.InfoLabelValues()));
    LastEffectConcat(init, last, Series(FILESYSTEM_STORAGE_CAPACITY, f.CapacityLabelValues()));
    if i < n {
      assert filesystems[..n][i] == f;
      assert forall j | i < j < n :: filesystems[..n][j] == filesystems[j];
      FilesystemLast(filesystems[..n], i);
    }
  }

  /** The info gauges of a filesystem, and its capacity when no later filesystem has its labels. */
  lemma FilesystemFigures(u: LustreUpdate, i: nat)
    requires u.Permitted() && i < |u.samples.filesystems|
    ensures var fs, f := u.samples.filesystems, u.samples.filesystems[i];
            var labels := [f.subscriptionId, f.resourceGroup, f.filesystemName, f.location];
            && u.Shown(FILESYSTEM_INFO, labels + [f.skuTier]) == Some(1.0)
            && u.Shown(DISCOVERED_FILESYSTEM_INFO, labels + [f.skuTier]) == Some(1.0)
            && ((forall j | i < j < |fs| :: fs[j].CapacityLabelValues() != f.CapacityLabelValues())
                ==> u.Shown(FILESYSTEM_STORAGE_CAPACITY, labels) == Some(f.storageCapacityTib))
  {
    var f := u.samples.filesystems[i];
    var info := [f.subscriptionId, f.resourceGroup, f.filesystemName, f.location] + [f.skuTier];
    assert info == f.InfoLabelValues();
    FilesystemLast(u.samples.filesystems, i);
    FilesystemShown(u, Series(FILESYSTEM_INFO, info));
    FilesystemShown(u, Series(DISCOVERED_FILESYSTEM_INFO, info));
    FilesystemShown(u, Series(FILESYSTEM_STORAGE_CAPACITY, f.CapacityLabelValues()));
  }

  lemma FilesystemShown(u: LustreUpdate, s: Series)
    requires u.Permitted() && s.gauge.family in {FilesystemInfoFamily, FilesystemCapacityFamily}
    ensures Leaves(LastEffect(FilesystemRows(u.samples.filesystems), s), u.Shown(s.gauge, s.labels))
  {
    OwnPart(u.samples, s);
    Published(u.exporter.store, LustreBatch(u.samples), u.removeStale, s);
  }
}
