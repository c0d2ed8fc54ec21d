/** The rows each collection writes, in the order the exporter writes them. */
module CollectorRows {
  import opened Wrappers
  import opened Models
  import opened GaugeStore

  /** `_set_or_remove_lustre_gauge`. */
  function SetOrRemove(value: Option<real>): Effect {
    match value
    case Some(v) => Set(v)
    case None => Remove
  }

  /** Freshness gauges are stamped only with a real sample timestamp. */
  function SetOrKeep(value: Option<real>): Effect {
    match value
    case Some(v) => Set(v)
    case None => Keep
  }

  // ---------------------------------------------------------------- VM Scale Sets

  const VMSS_FAMILIES := {VmssFamily, VmssStateFamily, VmssInfoFamily}

  function StateRows(count: VmssCount, n: nat): (rows: seq<Row>)
    requires n <= |count.StateCounts()|
    ensures |rows| == n
    ensures forall i | 0 <= i < n :: rows[i] == StateRow(count, i)
  {
    if n == 0 then [] else StateRows(count, n - 1) + [StateRow(count, n - 1)]
  }

  function StateRow(count: VmssCount, i: nat): Row
    requires i < |count.StateCounts()|
  {
    var (state, value) := count.StateCounts()[i];
    Row(VmssStateFamily, count.StateLabelValues(state), [(INSTANCE_COUNT_BY_STATE, Set(value))])
  }

  function CountRow(count: VmssCount): Row {
    Row(VmssFamily, count.LabelValues(), [(INSTANCE_COUNT, Set(count.actual)), (CAPACITY, Set(count.capacity))])
  }

  function InfoRow(count: VmssCount): Row {
    Row(VmssInfoFamily, count.InfoLabelValues(), [(VMSS_INFO, Set(1.0))])
  }

  function VmssRows(counts: seq<VmssCount>): seq<Row> {
    if counts == [] then []
    else
      var n := |counts| - 1;
      VmssRows(counts[..n]) + [CountRow(counts[n])] + StateRows(counts[n], 5) + [InfoRow(counts[n])]
  }

  function VmssBatch(counts: seq<VmssCount>): Batch { Batch(VmssRows(counts), VMSS_FAMILIES) }

  // ---------------------------------------------------------------- standalone VMs

  const VM_FAMILIES := {VmInfoFamily, VmPowerStateFamily, VmSizeFamily}

  function CountOf(vms: seq<StandaloneVm>, size: string): nat {
    if vms == [] then 0
    else CountOf(vms[..|vms| - 1], size) + if vms[|vms| - 1].vmSize == size then 1 else 0
  }

  /** The sizes in order of first appearance. */
  function SizeOrder(vms: seq<StandaloneVm>): seq<string> {
    if vms == [] then []
    else
      var order, size := SizeOrder(vms[..|vms| - 1]), vms[|vms| - 1].vmSize;
      if size in order then order else order + [size]
  }

  ghost predicate Distinct(order: seq<string>) {
    forall i, j | 0 <= i < j < |order| :: order[i] != order[j]
  }

  lemma {:induction false} SizeOrderListsSizes(vms: seq<StandaloneVm>)
    ensures Distinct(SizeOrder(vms))
    ensures forall size :: size in SizeOrder(vms) <==> CountOf(vms, size) > 0
  {
    if vms == [] {
    } else {
      SizeOrderListsSizes(vms[..|vms| - 1]);
    }
  }

  function SizeRows(vms: seq<StandaloneVm>, order: seq<string>): (rows: seq<Row>)
    ensures |rows| == |order|
    ensures forall i | 0 <= i < |order| ::
              rows[i] == Row(VmSizeFamily, [order[i]], [(VM_COUNT_BY_SIZE, Set(CountOf(vms, order[i]) as real))])
  {
    if order == [] then []
    else
      var size := order[|order| - 1];
      SizeRows(vms, order[..|order| - 1])
      + [Row(VmSizeFamily, [size], [(VM_COUNT_BY_SIZE, Set(CountOf(vms, size) as real))])]
  }

  function PowerRow(vm: StandaloneVm, i: nat): Row
    requires i < |STANDALONE_VM_POWER_STATES|
  {
    var state := STANDALONE_VM_POWER_STATES[i];
    Row(VmPowerStateFamily, vm.IdentityLabelValues() + [state],
        [(VM_POWER_STATE, Set(if state == vm.powerState then 1.0 else 0.0))])
  }

  function PowerRows(vm: StandaloneVm, n: nat): (rows: seq<Row>)
    requires n <= |STANDALONE_VM_POWER_STATES|
    ensures |rows| == n
    ensures forall i | 0 <= i < n :: rows[i] == PowerRow(vm, i)
  {
    if n == 0 then [] else PowerRows(vm, n - 1) + [PowerRow(vm, n - 1)]
  }

  function VmInfoRow(vm: StandaloneVm): Row {
    Row(VmInfoFamily, vm.InfoLabelValues(), [(VM_INFO, Set(1.0))])
  }

  function PerVmRows(vms: seq<StandaloneVm>): seq<Row> {
    if vms == [] then []
    else
      var n := |vms| - 1;
      PerVmRows(vms[..n]) + [VmInfoRow(vms[n])] + PowerRows(vms[n], 6)
  }

  /** Above the cap only the size counts are published. */
  function VmBatch(vms: seq<StandaloneVm>, cap: int): Batch {
    Batch(SizeRows(vms, SizeOrder(vms)) + if |vms| > cap then [] else PerVmRows(vms), VM_FAMILIES)
  }

  // ---------------------------------------------------------------- Managed Lustre

  const LUSTRE_FAMILIES := {
    FilesystemInfoFamily, FilesystemCapacityFamily, FilesystemAggregateFamily,
    OstFamily, OstOperationFamily, MdtFamily, MdtOperationFamily}

  datatype LustreSamples = LustreSamples(
    filesystems: seq<Filesystem>, aggregates: seq<AggregateMetric>,
    osts: seq<OstMetric>, ostOperations: seq<OstOperationMetric>,
    mdts: seq<MdtMetric>, mdtOperations: seq<MdtOperationMetric>)

  function FilesystemInfoRow(f: Filesystem): Row {
    Row(FilesystemInfoFamily, f.InfoLabelValues(),
        [(FILESYSTEM_INFO, Set(1.0)), (DISCOVERED_FILESYSTEM_INFO, Set(1.0))])
  }

  function FilesystemCapacityRow(f: Filesystem): Row {
    Row(FilesystemCapacityFamily, f.CapacityLabelValues(),
        [(FILESYSTEM_STORAGE_CAPACITY, Set(f.storageCapacityTib))])
  }

  function AggregateRow(m: AggregateMetric): Row {
    Row(FilesystemAggregateFamily, m.key, [
      (FILESYSTEM_CONNECTED_CLIENTS, SetOrRemove(m.connectedClients)),
      (FILESYSTEM_CLIENT_EVICTIONS, SetOrRemove(m.clientEvictions)),
      (METADATA_AMPLIFICATION_RATIO, SetOrRemove(m.metadataAmplificationRatio)),
      (FILESYSTEM_SAMPLE_MAX_AGE, SetOrRemove(m.sampleMaxAge))])
  }

  function OstRow(m: OstMetric): Row {
    Row(OstFamily, m.LabelValues(), [
      (OST_BYTES_AVAILABLE, SetOrRemove(m.bytesAvailable)),
      (OST_BYTES_USED, SetOrRemove(m.bytesUsed)),
      (OST_BYTES_TOTAL, SetOrRemove(m.bytesTotal)),
      (OST_BYTES_AVAILABLE_PERCENT, SetOrRemove(Percent(m.bytesAvailable, m.bytesTotal))),
      (OST_BYTES_USED_PERCENT, SetOrRemove(Percent(m.bytesUsed, m.bytesTotal))),
      (CLIENT_READ_OPS, SetOrRemove(m.clientReadOps)),
      (CLIENT_READ_THROUGHPUT, SetOrRemove(m.clientReadThroughput)),
      (CLIENT_WRITE_OPS, SetOrRemove(m.clientWriteOps)),
      (CLIENT_WRITE_THROUGHPUT, SetOrRemove(m.clientWriteThroughput)),
      (OST_CONNECTED_CLIENTS, SetOrRemove(m.connectedClients)),
      (OST_SAMPLE_TIMESTAMP, SetOrKeep(m.sampleTimestamp))])
  }

  function OstOperationRow(m: OstOperationMetric): Row {
    Row(OstOperationFamily, m.LabelValues(), [
      (OST_CLIENT_LATENCY, SetOrRemove(m.clientLatency)),
      (OST_CLIENT_OPS, SetOrRemove(m.clientOps)),
      (OST_OPERATION_SAMPLE_TIMESTAMP, SetOrKeep(m.sampleTimestamp))])
  }

  function MdtRow(m: MdtMetric): Row {
    Row(MdtFamily, m.LabelValues(), [
      (MDT_BYTES_AVAILABLE, SetOrRemove(m.bytesAvailable)),
      (MDT_BYTES_USED, SetOrRemove(m.bytesUsed)),
      (MDT_BYTES_TOTAL, SetOrRemove(m.bytesTotal)),
      (MDT_BYTES_AVAILABLE_PERCENT, SetOrRemove(Percent(m.bytesAvailable, m.bytesTotal))),
      (MDT_BYTES_USED_PERCENT, SetOrRemove(Percent(m.bytesUsed, m.bytesTotal))),
      (MDT_FILES_FREE, SetOrRemove(m.filesFree)),
      (MDT_FILES_USED, SetOrRemove(m.filesUsed)),
      (MDT_FILES_TOTAL, SetOrRemove(m.filesTotal)),
      (MDT_FILES_FREE_PERCENT, SetOrRemove(Percent(m.filesFree, m.filesTotal))),
      (MDT_FILES_USED_PERCENT, SetOrRemove(Percent(m.filesUsed, m.filesTotal))),
      (HSM_ACTION_ERRORS, SetOrRemove(m.hsmActionErrors)),
      (HSM_CURRENT_REQUESTS, SetOrRemove(m.hsmCurrentRequests)),
      (MDT_CLIENT_EVICTIONS, SetOrRemove(m.clientEvictions)),
      (MDT_CONNECTED_CLIENTS, SetOrRemove(m.connectedClients)),
      (MDT_SAMPLE_TIMESTAMP, SetOrKeep(m.sampleTimestamp))])
  }

  function MdtOperationRow(m: MdtOperationMetric): Row {
    Row(MdtOperationFamily, m.LabelValues(), [
      (MDT_CLIENT_LATENCY, SetOrRemove(m.clientLatency)),
      (MDT_CLIENT_OPS, SetOrRemove(m.clientOps)),
      (MDT_OPERATION_SAMPLE_TIMESTAMP, SetOrKeep(m.sampleTimestamp))])
  }

  function MapRows<T>(samples: seq<T>, row: T -> Row): seq<Row> {
    if samples == [] then [] else MapRows(samples[..|samples| - 1], row) + [row(samples[|samples| - 1])]
  }

  function FilesystemRows(filesystems: seq<Filesystem>): seq<Row> {
    if filesystems == [] then []
    else
      var n := |filesystems| - 1;
      FilesystemRows(filesystems[..n]) + [FilesystemInfoRow(filesystems[n]), FilesystemCapacityRow(filesystems[n])]
  }

  function LustreRows(m: LustreSamples): seq<Row> {
    FilesystemRows(m.filesystems) + MapRows(m.aggregates, AggregateRow)
    + MapRows(m.osts, OstRow) + MapRows(m.ostOperations, OstOperationRow)
    + MapRows(m.mdts, MdtRow) + MapRows(m.mdtOperations, MdtOperationRow)
  }

  function LustreBatch(m: LustreSamples): Batch { Batch(LustreRows(m), LUSTRE_FAMILIES) }

  // ---------------------------------------------------------------- well-formedness of the rows

  lemma OstRowGood(m: OstMetric)
    ensures GoodRow(OstRow(m))
  {
  }

  lemma MdtRowGood(m: MdtMetric)
    ensures GoodRow(MdtRow(m))
  {
  }

  lemma {:induction false} FilesystemRowsSet(filesystems: seq<Filesystem>)
    ensures forall row | row in FilesystemRows(filesystems) :: Sets(row) && row.family in LUSTRE_FAMILIES
  {
    if filesystems == [] {
    } else {
      var n := |filesystems| - 1;
      FilesystemRowsSet(filesystems[..n]);
      assert Sets(FilesystemInfoRow(filesystems[n])) && Sets(FilesystemCapacityRow(filesystems[n]));
    }
  }

  ghost predicate AllGood(rows: seq<Row>, family: Family) {
    forall row | row in rows :: GoodRow(row) && row.family == family
  }

  lemma MappedRowsGood<T>(samples: seq<T>, row: T -> Row, family: Family)
    requires forall x | x in samples :: GoodRow(row(x)) && row(x).family == family
    ensures AllGood(MapRows(samples, row), family)
  {}

  lemma OstRowsGood(samples: seq<OstMetric>)
    ensures AllGood(MapRows(samples, OstRow), OstFamily)
  {
    forall x | x in samples ensures GoodRow(OstRow(x)) { OstRowGood(x); }
    MappedRowsGood(samples, OstRow, OstFamily);
  }

  lemma MdtRowsGood(samples: seq<MdtMetric>)
    ensures AllGood(MapRows(samples, MdtRow), MdtFamily)
  {
    forall x | x in samples ensures GoodRow(MdtRow(x)) { MdtRowGood(x); }
    MappedRowsGood(samples, MdtRow, MdtFamily);
  }

  lemma OstOperationRowsGood(samples: seq<OstOperationMetric>)
    ensures AllGood(MapRows(samples, OstOperationRow), OstOperationFamily)
  {}

  lemma MdtOperationRowsGood(samples: seq<MdtOperationMetric>)
    ensures AllGood(MapRows(samples, MdtOperationRow), MdtOperationFamily)
  {}

  lemma AggregateRowsGood(samples: seq<AggregateMetric>)
    ensures AllGood(MapRows(samples, AggregateRow), FilesystemAggregateFamily)
  {}

  /** Every Lustre row is good, and the filesystem rows only set. */
  lemma LustreBatchGood(m: LustreSamples)
    ensures GoodBatch(LustreBatch(m))
    ensures forall row | row in LustreRows(m) && row.family in {FilesystemInfoFamily, FilesystemCapacityFamily} :: Sets(row)
  {
    FilesystemRowsSet(m.filesystems);
    AggregateRowsGood(m.aggregates);
    OstRowsGood(m.osts);
    OstOperationRowsGood(m.ostOperations);
    MdtRowsGood(m.mdts);
    MdtOperationRowsGood(m.mdtOperations);
    forall row | row in LustreRows(m)
      ensures GoodRow(row) && row.family in LUSTRE_FAMILIES
      ensures row.family in {FilesystemInfoFamily, FilesystemCapacityFamily} ==> Sets(row)
    {
    }
  }

  /** Rows that only set. */
  ghost predicate Sets(row: Row) {
    GoodRow(row) && forall i | 0 <= i < |row.readings| :: row.readings[i].1.Set?
  }

  lemma VmssRowsSet(count: VmssCount)
    ensures Sets(CountRow(count)) && Sets(InfoRow(count))
    ensures forall i | 0 <= i < 5 :: Sets(StateRow(count, i))
  {}

  lemma {:induction false} VmssBatchGood(counts: seq<VmssCount>)
    ensures forall row | row in VmssRows(counts) :: Sets(row) && row.family in VMSS_FAMILIES
  {
    if counts == [] {
    } else {
      var n := |counts| - 1;
      VmssBatchGood(counts[..n]);
      VmssRowsSet(counts[n]);
    }
  }

  lemma VmRowsSet(vm: StandaloneVm)
    ensures Sets(VmInfoRow(vm))
    ensures forall i | 0 <= i < 6 :: Sets(PowerRow(vm, i))
  {}

  lemma {:induction false} PerVmRowsGood(vms: seq<StandaloneVm>)
    ensures forall row | row in PerVmRows(vms) :: Sets(row) && row.family in {VmInfoFamily, VmPowerStateFamily}
  {
    if vms == [] {
    } else {
      var n := |vms| - 1;
      PerVmRowsGood(vms[..n]);
      VmRowsSet(vms[n]);
    }
  }

  lemma SizeRowsGood(vms: seq<StandaloneVm>, order: seq<string>)
    ensures forall row | row in SizeRows(vms, order) :: Sets(row) && row.family == VmSizeFamily
  {}

  lemma VmBatchGood(vms: seq<StandaloneVm>, cap: int)
    ensures forall row | row in VmBatch(vms, cap).rows :: Sets(row) && row.family in VM_FAMILIES
  {
    SizeRowsGood(vms, SizeOrder(vms));
    PerVmRowsGood(vms);
  }

  // ---------------------------------------------------------------- the labelsets of an update

  /** The labelsets `_update_metrics` computes before it takes the lock. */
  function VmssLabelsets(counts: seq<VmssCount>): set<Active> {
    (set c | c in counts :: Active(VmssFamily, c.LabelValues()))
    + (set c, state | c in counts && state in VMSS_INSTANCE_STATES ::
         Active(VmssStateFamily, c.StateLabelValues(state)))
    + (set c | c in counts :: Active(VmssInfoFamily, c.InfoLabelValues()))
  }

  lemma ReportedConcat(xs: seq<Row>, ys: seq<Row>)
    ensures Reported(xs + ys) == Reported(xs) + Reported(ys)
  {}

  lemma StateRowsReported(count: VmssCount)
    ensures Reported(StateRows(count, 5))
         == set state | state in VMSS_INSTANCE_STATES :: Active(VmssStateFamily, count.StateLabelValues(state))
  {
    var rows := StateRows(count, 5);
    assert forall i | 0 <= i < 5 :: rows[i].labels == count.StateLabelValues(VMSS_INSTANCE_STATES[i]);
    forall state | state in VMSS_INSTANCE_STATES
      ensures Active(VmssStateFamily, count.StateLabelValues(state)) in Reported(rows)
    {
      var i :| 0 <= i < 5 && VMSS_INSTANCE_STATES[i] == state;
      assert rows[i] in rows;
    }
    forall a | a in Reported(rows)
      ensures a in set state | state in VMSS_INSTANCE_STATES :: Active(VmssStateFamily, count.StateLabelValues(state))
    {
      var i :| 0 <= i < 5 && a == Active(rows[i].family, rows[i].labels);
      assert VMSS_INSTANCE_STATES[i] in VMSS_INSTANCE_STATES;
    }
  }

  lemma LabelsetsOneMore(counts: seq<VmssCount>)
    requires counts != []
    ensures var n, count := |counts| - 1, counts[|counts| - 1];
            VmssLabelsets(counts) == VmssLabelsets(counts[..n])
              + {Active(VmssFamily, count.LabelValues()), Active(VmssInfoFamily, count.InfoLabelValues())}
              + set state | state in VMSS_INSTANCE_STATES :: Active(VmssStateFamily, count.StateLabelValues(state))
  {}

  /** They are the labelsets of the rows it then writes: state_counts lists exactly the five states. */
  lemma {:induction false} VmssLabelsetsReported(counts: seq<VmssCount>)
    ensures Reported(VmssRows(counts)) == VmssLabelsets(counts)
  {
    if counts == [] {
    } else {
      var n := |counts| - 1;
      var count := counts[n];
      VmssLabelsetsReported(counts[..n]);
      StateRowsReported(count);
      ReportedConcat(VmssRows(counts[..n]) + [CountRow(count)] + StateRows(count, 5), [InfoRow(count)]);
      ReportedConcat(VmssRows(counts[..n]) + [CountRow(count)], StateRows(count, 5));
      ReportedConcat(VmssRows(counts[..n]), [CountRow(count)]);
      LabelsetsOneMore(counts);
    }
  }
}
