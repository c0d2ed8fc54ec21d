/**
  The exporter object: gauges and active labelsets changed in place by the remove and set loops
  of each update, under one lock. Every method is one locked section, or one half of a leadership
  change; its contract says which step of a run it is.
 */
module Collector {
  import opened Wrappers
  import opened Models
  import opened GaugeStore
  import opened CollectorRows
  import opened CollectorRuns
  import A = LustreAggregation

  datatype SetupError = InventoryNotPositive

  /** What one Lustre collection returned; a positive error count makes it partial. */
  datatype LustreResult = LustreResult(samples: LustreSamples, filesystemCount: nat, errorCount: nat)

  /** The samples an update publishes: the aggregates of the result, or computed ones when it has none. */
  ghost predicate Completed(samples: LustreSamples, now: real, used: LustreSamples) {
    && used == samples.(aggregates := used.aggregates)
    && (samples.aggregates != [] ==> used == samples)
    && (samples.aggregates == [] ==>
          A.Aggregated(A.Input(samples.filesystems, samples.osts, samples.ostOperations,
                               samples.mdts, samples.mdtOperations), now, used.aggregates))
  }

  /** At most one completion exists, so the updates below are determined by their inputs. */
  lemma CompletionUnique(samples: LustreSamples, now: real, x: LustreSamples, y: LustreSamples)
    requires Completed(samples, now, x) && Completed(samples, now, y)
    ensures x == y
  {
    if samples.aggregates == [] {
      A.AggregatedUnique(A.Input(samples.filesystems, samples.osts, samples.ostOperations,
                                 samples.mdts, samples.mdtOperations), now, x.aggregates, y.aggregates);
    }
  }

  const CLEARED_VMSS: seq<Gauge> := [INSTANCE_COUNT, CAPACITY, INSTANCE_COUNT_BY_STATE, VMSS_INFO]

  const CLEARED_LUSTRE: seq<Gauge> := [
    OST_BYTES_AVAILABLE, OST_BYTES_USED, OST_BYTES_TOTAL,
    OST_BYTES_AVAILABLE_PERCENT, OST_BYTES_USED_PERCENT,
    CLIENT_READ_OPS, CLIENT_READ_THROUGHPUT, CLIENT_WRITE_OPS, CLIENT_WRITE_THROUGHPUT,
    OST_CONNECTED_CLIENTS, OST_SAMPLE_TIMESTAMP,
    OST_CLIENT_LATENCY, OST_CLIENT_OPS, OST_OPERATION_SAMPLE_TIMESTAMP,
    MDT_BYTES_AVAILABLE, MDT_BYTES_USED, MDT_BYTES_TOTAL,
    MDT_BYTES_AVAILABLE_PERCENT, MDT_BYTES_USED_PERCENT,
    MDT_FILES_FREE, MDT_FILES_USED, MDT_FILES_TOTAL, MDT_FILES_FREE_PERCENT, MDT_FILES_USED_PERCENT,
    MDT_SAMPLE_TIMESTAMP, HSM_ACTION_ERRORS, HSM_CURRENT_REQUESTS,
    MDT_CLIENT_EVICTIONS, MDT_CONNECTED_CLIENTS,
    MDT_CLIENT_LATENCY, MDT_CLIENT_OPS, MDT_OPERATION_SAMPLE_TIMESTAMP,
    FILESYSTEM_INFO, DISCOVERED_FILESYSTEM_INFO, FILESYSTEM_STORAGE_CAPACITY,
    FILESYSTEM_CONNECTED_CLIENTS, FILESYSTEM_CLIENT_EVICTIONS,
    METADATA_AMPLIFICATION_RATIO, FILESYSTEM_SAMPLE_MAX_AGE]

  const CLEARED_VMS: seq<Gauge> := [VM_INFO, VM_POWER_STATE, VM_COUNT_BY_SIZE]

  /** The gauges `_clear_resource_gauges` drops, in its order. */
  const CLEARED := CLEARED_VMSS + CLEARED_LUSTRE + CLEARED_VMS

  /** The list leaves no labelled gauge out. */
  lemma EveryGaugeIsCleared(gauge: Gauge)
    requires gauge.place < Arity(gauge.family)
    ensures gauge in CLEARED
  {}

  lemma NothingEscapesClearing(store: Store)
    requires Indexed(store)
    ensures (map s | s in store.series && s.gauge !in CLEARED :: store.series[s]) == map[]
  {
    forall s | s in store.series ensures s.gauge in CLEARED {
      EveryGaugeIsCleared(s.gauge);
    }
  }

  class MetricsExporter {
    const electionEnabled: bool
    const maxInventory: int
    var leaderEvent: bool
    var beacon: real                        // the is_leader gauge
    var series: map<Series, real>
    var active: set<Active>
    var scalars: Scalars
    var errors: nat                         // the Lustre error counter
    ghost var change: Change

    ghost function View(): Exporter
      reads this
    {
      Exporter(electionEnabled, leaderEvent, beacon, change, Store(series, active), scalars)
    }

    ghost predicate Valid()
      reads this
    {
      Inv(View())
    }

    constructor (electionEnabled: bool, maxInventory: int)
      ensures View() == Start(electionEnabled) && Valid() && errors == 0
      ensures this.maxInventory == maxInventory && this.electionEnabled == electionEnabled
    {
      this.electionEnabled, this.maxInventory := electionEnabled, maxInventory;
      leaderEvent, beacon := !electionEnabled, if electionEnabled then 0.0 else 1.0;
      series, active, scalars, errors, change := map[], {}, ZEROS, 0, Settled;
    }

    /** The inventory cap must be positive. */
    static method Create(electionEnabled: bool, maxInventory: int) returns (r: Result<MetricsExporter, SetupError>)
      ensures r.Ok? <==> maxInventory > 0
      ensures r.Ok? ==> fresh(r.value) && r.value.Valid() && r.value.View() == Start(electionEnabled)
                        && r.value.maxInventory == maxInventory
    {
      if maxInventory <= 0 {
        return Err(InventoryNotPositive);
      }
      var exporter := new MetricsExporter(electionEnabled, maxInventory);
      return Ok(exporter);
    }

    // -------------------------------------------------------------- leadership

    /** The two lines of `set_leader(True)`: the beacon, then the event. */
    method Promote()
      requires Valid() && change.Settled?
      modifies this
      ensures Valid() && change.Settled?
      ensures View() == if electionEnabled then
                          Step(maxInventory, Step(maxInventory, old(View()), BeginPromotion), CollectorRuns.Promote)
                        else old(View())
    {
      if electionEnabled {
        beacon, change := 1.0, Promoting;
        leaderEvent, change := true, Settled;
      }
    }

    /** The first two lines of `set_leader(False)`. */
    method BeginDemotion()
      requires Valid() && change.Settled?
      modifies this
      ensures Valid() && change == if electionEnabled then Clearing else Settled
      ensures View() == if electionEnabled then
                          Step(maxInventory, Step(maxInventory, old(View()), CollectorRuns.BeginDemotion), ClearEvent)
                        else old(View())
    {
      if electionEnabled {
        beacon, change := 0.0, Demoting;
        leaderEvent, change := false, Clearing;
      }
    }

    method DropGauges(gauges: seq<Gauge>)
      modifies this`series
      ensures series == map s | s in old(series) && s.gauge !in gauges :: old(series)[s]
    {
      for k := 0 to |gauges|
        invariant series == map s | s in old(series) && s.gauge !in gauges[..k] :: old(series)[s]
      {
        series := map s | s in series && s.gauge != gauges[k] :: series[s];
        assert gauges[..k + 1] == gauges[..k] + [gauges[k]];
      }
      assert gauges[..|gauges|] == gauges;
    }

    /** `_clear_resource_gauges`. */
    method ClearResourceGauges()
      requires Valid() && change.Clearing?
      modifies this
      ensures View() == Step(maxInventory, old(View()), FinishDemotion) && Valid()
      ensures series == map[] && active == {} && errors == old(errors)
    {
      ghost var before := View();
      DropGauges(CLEARED);
      NothingEscapesClearing(before.store);
      active := {};
      scalars := ZEROS;
      change := Settled;
      StepKeepsInv(maxInventory, before, FinishDemotion);
    }

    /** `set_leader`: a follower has nothing left to expose when it returns. */
    method SetLeader(isLeader: bool)
      requires Valid() && change.Settled?
      modifies this
      ensures Valid() && change.Settled?
      ensures !electionEnabled ==> View() == old(View())
      ensures electionEnabled ==> leaderEvent == isLeader && beacon == if isLeader then 1.0 else 0.0
      ensures electionEnabled && !isLeader ==> series == map[] && active == {} && scalars == ZEROS
      ensures electionEnabled && isLeader ==> series == old(series) && active == old(active) && scalars == old(scalars)
    {
      if isLeader {
        Promote();
      } else {
        BeginDemotion();
        if electionEnabled {
          ClearResourceGauges();
        }
      }
    }

    method CanWriteMetricsLocked() returns (ok: bool)
      ensures ok == CanWrite(View())
    {
      ok := !electionEnabled || leaderEvent;
    }

    // -------------------------------------------------------------- the loops of an update

    method WriteRow(row: Row)
      modifies this`series
      ensures series == WriteReadings(old(series), row.labels, row.readings)
    {
      for k := 0 to |row.readings|
        invariant series == WriteReadings(old(series), row.labels, row.readings[..k])
      {
        var (gauge, effect) := row.readings[k];
        match effect {
          case Set(value) => series := series[Series(gauge, row.labels) := value];
          case Remove => series := series - {Series(gauge, row.labels)};
          case Keep =>
        }
        assert row.readings[..k + 1][..k] == row.readings[..k];
      }
      assert row.readings[..|row.readings|] == row.readings;
    }

    method WriteAll(rows: seq<Row>)
      modifies this`series
      ensures series == WriteRows(old(series), rows)
    {
      for k := 0 to |rows|
        invariant series == WriteRows(old(series), rows[..k])
      {
        WriteRow(rows[k]);
        assert rows[..k + 1][..k] == rows[..k];
      }
      assert rows[..|rows|] == rows;
    }

    /** Removes the stale labels from every gauge of their family. */
    method RemoveStale(stale: set<Active>)
      requires forall s | s in series :: s.gauge.place < Arity(s.gauge.family)
      modifies this`series
      ensures series == DropSeries(old(series), stale)
    {
      var rest := stale;
      while rest != {}
        invariant rest <= stale
        invariant series == DropSeries(old(series), stale - rest)
        decreases |rest|
      {
        var a :| a in rest;
        ghost var before := series;
        var place := 0;
        while place < Arity(a.family)
          invariant place <= Arity(a.family)
          invariant series == map s | s in before && !(ActiveOf(s) == a && s.gauge.place < place) :: before[s]
        {
          series := series - {Series(Gauge(a.family, place), a.labels)};
          place := place + 1;
        }
        assert stale - (rest - {a}) == stale - rest + {a};
        rest := rest - {a};
      }
      assert stale - {} == stale;
    }

    /** Removal of stale series, the writes, and the move of the active labelsets. */
    method Renew(rows: seq<Row>, families: set<Family>, removeStale: bool)
      requires Indexed(Store(series, active))
      modifies this`series, this`active
      ensures Store(series, active) == Publish(Store(old(series), old(active)), Batch(rows, families), removeStale)
    {
      var reported := Reported(rows);
      var stale := {};
      if removeStale {
        stale := set a | a in active && a.family in families && a !in reported;
      }
      RemoveStale(stale);
      WriteAll(rows);
      active := active - stale + reported;
    }

    // -------------------------------------------------------------- the three updates

    /** `_update_metrics`. */
    method UpdateMetrics(counts: seq<VmssCount>) returns (published: bool)
      requires Valid()
      modifies this
      ensures View() == Step(maxInventory, old(View()), UpdateVmss(counts)) && Valid()
      ensures published == CanWrite(old(View())) && errors == old(errors)
    {
      ghost var before := View();
      StepKeepsInv(maxInventory, before, UpdateVmss(counts));
      var reported := VmssLabelsets(counts);
      VmssLabelsetsReported(counts);
      published := CanWriteMetricsLocked();
      if !published {
        return;
      }
      var stale := set a | a in active && a.family in VMSS_FAMILIES && a !in reported;
      assert stale == Stale(before.store, VmssBatch(counts));
      RemoveStale(stale);
      WriteCounts(counts);
      active := active - stale + reported;
    }

    method WriteCounts(counts: seq<VmssCount>)
      modifies this`series
      ensures series == WriteRows(old(series), VmssRows(counts))
    {
      for i := 0 to |counts|
        invariant series == WriteRows(old(series), VmssRows(counts[..i]))
      {
        WriteCount(counts[i], old(series), VmssRows(counts[..i]));
        assert counts[..i + 1][..i] == counts[..i];
      }
      assert counts[..|counts|] == counts;
    }

    /** The gauges of one scale set, after the rows already written over `base`. */
    method WriteCount(count: VmssCount, ghost base: map<Series, real>, ghost done: seq<Row>)
      requires series == WriteRows(base, done)
      modifies this`series
      ensures series == WriteRows(base, done + [CountRow(count)] + StateRows(count, 5) + [InfoRow(count)])
    {
      WriteRow(CountRow(count));
      OneMoreRow(base, done, CountRow(count));
      ghost var counted := done + [CountRow(count)];
      assert counted + StateRows(count, 0) == counted;
      for k := 0 to |count.StateCounts()|
        invariant series == WriteRows(base, counted + StateRows(count, k))
      {
        WriteRow(StateRow(count, k));
        OneMoreRow(base, counted + StateRows(count, k), StateRow(count, k));
        assert counted + StateRows(count, k) + [StateRow(count, k)] == counted + StateRows(count, k + 1);
      }
      WriteRow(InfoRow(count));
      OneMoreRow(base, counted + StateRows(count, 5), InfoRow(count));
    }

    /** `_update_standalone_vm_metrics`. */
    method UpdateStandaloneVmMetrics(vms: seq<StandaloneVm>) returns (published: bool)
      requires Valid()
      modifies this
      ensures View() == Step(maxInventory, old(View()), UpdateVms(vms)) && Valid()
      ensures published == CanWrite(old(View())) && errors == old(errors)
    {
      ghost var before := View();
      StepKeepsInv(maxInventory, before, UpdateVms(vms));
      var order, sizeCounts := CountSizes(vms);
      var sizes := CountRows(vms, order, sizeCounts);
      var rows := if |vms| > maxInventory then sizes else sizes + PerVmRows(vms);
      assert rows == VmBatch(vms, maxInventory).rows;
      published := CanWriteMetricsLocked();
      if !published {
        return;
      }
      Renew(rows, VM_FAMILIES, true);
    }

    /** The `size_counts` dictionary, its keys in insertion order. */
    static method CountSizes(vms: seq<StandaloneVm>) returns (order: seq<string>, counts: map<string, nat>)
      ensures order == SizeOrder(vms)
      ensures counts.Keys == set size | size in order
      ensures forall size | size in counts :: counts[size] == CountOf(vms, size)
    {
      order, counts := [], map[];
      for i := 0 to |vms|
        invariant order == SizeOrder(vms[..i])
        invariant counts.Keys == set size | size in order
        invariant forall size | size in counts :: counts[size] == CountOf(vms[..i], size)
      {
        var size := vms[i].vmSize;
        SizeOrderListsSizes(vms[..i]);
        assert vms[..i + 1][..i] == vms[..i];
        if size !in counts {
          order := order + [size];
        }
        counts := counts[size := (if size in counts then counts[size] else 0) + 1];
      }
      assert vms[..|vms|] == vms;
    }

    /** The rows of the `size_counts` items. */
    static method CountRows(ghost vms: seq<StandaloneVm>, order: seq<string>, counts: map<string, nat>)
      returns (rows: seq<Row>)
      requires forall size | size in order :: size in counts && counts[size] == CountOf(vms, size)
      ensures rows == SizeRows(vms, order)
    {
      rows := [];
      for i := 0 to |order|
        invariant rows == SizeRows(vms, order[..i])
      {
        rows := rows + [Row(VmSizeFamily, [order[i]], [(VM_COUNT_BY_SIZE, Set(counts[order[i]] as real))])];
        assert order[..i + 1][..i] == order[..i];
      }
      assert order[..|order|] == order;
    }

    /** `_update_lustre_metrics`. */
    method UpdateLustreMetrics(samples: LustreSamples, removeStale: bool) returns (published: bool)
      requires Valid()
      modifies this
      ensures View() == Step(maxInventory, old(View()), UpdateLustre(samples, removeStale)) && Valid()
      ensures published == CanWrite(old(View())) && errors == old(errors)
    {
      ghost var before := View();
      StepKeepsInv(maxInventory, before, UpdateLustre(samples, removeStale));
      published := CanWriteMetricsLocked();
      if !published {
        return;
      }
      Renew(LustreRows(samples), LUSTRE_FAMILIES, removeStale);
    }

    /** The summary section of a Lustre collection, under the lock again. */
    method SummariseLustreCollection(r: LustreResult, at: real, duration: real)
      requires Valid()
      modifies this
      ensures View() == Step(maxInventory, old(View()), SummariseLustre(r.filesystemCount, |r.samples.osts|, at, duration))
      ensures Valid() && errors == old(errors) + if CanWrite(old(View())) then r.errorCount else 0
    {
      ghost var before := View();
      StepKeepsInv(maxInventory, before, SummariseLustre(r.filesystemCount, |r.samples.osts|, at, duration));
      var ok := CanWriteMetricsLocked();
      if ok {
        errors := errors + r.errorCount;
        scalars := scalars.(lustreTotal := r.filesystemCount as real, ostSamples := |r.samples.osts| as real,
                            lustreLastSuccess := at, lustreDuration := duration);
      }
    }

    /** `result.filesystem_aggregate_metrics or build_lustre_filesystem_aggregate_metrics(...)`. */
    static method CompleteSamples(samples: LustreSamples, now: real) returns (used: LustreSamples)
      ensures Completed(samples, now, used)
    {
      used := samples;
      if samples.aggregates == [] {
        var built := A.BuildAggregateMetrics(
          A.Input(samples.filesystems, samples.osts, samples.ostOperations, samples.mdts, samples.mdtOperations), now);
        used := samples.(aggregates := built);
      }
    }

    /**
      `collect_lustre_once` with no other thread in between, `now` its first reading of the clock: a
      failed collection touches only its duration, and one with errors keeps stale series.
     */
    method CollectLustreOnce(result: Option<LustreResult>, now: real, at: real, duration: real)
      returns (raised: bool, ghost used: LustreSamples)
      requires Valid()
      modifies this
      ensures Valid() && raised == result.None?
      ensures result.None? ==> View() == Step(maxInventory, old(View()), FailLustre(duration)) && errors == old(errors) + 1
      ensures result.Some? ==> Completed(result.value.samples, now, used)
      ensures result.Some? && !CanWrite(old(View())) ==> View() == old(View()) && errors == old(errors)
      ensures result.Some? && CanWrite(old(View())) ==>
                var r := result.value;
                var updated := Step(maxInventory, old(View()), UpdateLustre(used, r.errorCount == 0));
                && errors == old(errors) + r.errorCount
                && View() == Step(maxInventory, updated, SummariseLustre(r.filesystemCount, |r.samples.osts|, at, duration))
    {
      if result.None? {
        used := LustreSamples([], [], [], [], [], []);
        StepKeepsInv(maxInventory, View(), FailLustre(duration));
        errors := errors + 1;
        scalars := scalars.(lustreDuration := duration);
        return true, used;
      }
      raised := false;
      var r := result.value;
      var samples := CompleteSamples(r.samples, now);
      used := samples;
      var published := UpdateLustreMetrics(samples, r.errorCount == 0);
      if published {
        SummariseLustreCollection(r, at, duration);
      }
    }
  }

  lemma OneMoreRow(series: map<Series, real>, rows: seq<Row>, row: Row)
    ensures WriteRows(series, rows + [row]) == WriteReadings(WriteRows(series, rows), row.labels, row.readings)
  {}
}
