/**
  The labelled gauges of the exporter and the generic effect of one gated update: stale series are
  removed, rows are written in order, and the active labelsets follow. Series are kept in one map
  keyed by gauge and labels, active labelsets in one set keyed by family and labels.
 */
module GaugeStore {
  import opened Wrappers
  import opened Models

  /** One active-labelsets field each; its gauges share their label tuples. */
  datatype Family =
    | VmssFamily | VmssStateFamily | VmssInfoFamily
    | OstFamily | OstOperationFamily | MdtFamily | MdtOperationFamily
    | FilesystemInfoFamily | FilesystemCapacityFamily | FilesystemAggregateFamily
    | VmInfoFamily | VmPowerStateFamily | VmSizeFamily

  /** A labelled gauge, named by its family and its place among the gauges the family writes. */
  datatype Gauge = Gauge(family: Family, place: nat)

  const INSTANCE_COUNT := Gauge(VmssFamily, 0)
  const CAPACITY := Gauge(VmssFamily, 1)
  const INSTANCE_COUNT_BY_STATE := Gauge(VmssStateFamily, 0)
  const VMSS_INFO := Gauge(VmssInfoFamily, 0)
  const OST_BYTES_AVAILABLE := Gauge(OstFamily, 0)
  const OST_BYTES_USED := Gauge(OstFamily, 1)
  const OST_BYTES_TOTAL := Gauge(OstFamily, 2)
  const OST_BYTES_AVAILABLE_PERCENT := Gauge(OstFamily, 3)
  const OST_BYTES_USED_PERCENT := Gauge(OstFamily, 4)
  const CLIENT_READ_OPS := Gauge(OstFamily, 5)
  const CLIENT_READ_THROUGHPUT := Gauge(OstFamily, 6)
  const CLIENT_WRITE_OPS := Gauge(OstFamily, 7)
  const CLIENT_WRITE_THROUGHPUT := Gauge(OstFamily, 8)
  const OST_CONNECTED_CLIENTS := Gauge(OstFamily, 9)
  const OST_SAMPLE_TIMESTAMP := Gauge(OstFamily, 10)
  const OST_CLIENT_LATENCY := Gauge(OstOperationFamily, 0)
  const OST_CLIENT_OPS := Gauge(OstOperationFamily, 1)
  const OST_OPERATION_SAMPLE_TIMESTAMP := Gauge(OstOperationFamily, 2)
  const MDT_BYTES_AVAILABLE := Gauge(MdtFamily, 0)
  const MDT_BYTES_USED := Gauge(MdtFamily, 1)
  const MDT_BYTES_TOTAL := Gauge(MdtFamily, 2)
  const MDT_BYTES_AVAILABLE_PERCENT := Gauge(MdtFamily, 3)
  const MDT_BYTES_USED_PERCENT := Gauge(MdtFamily, 4)
  const MDT_FILES_FREE := Gauge(MdtFamily, 5)
  const MDT_FILES_USED := Gauge(MdtFamily, 6)
  const MDT_FILES_TOTAL := Gauge(MdtFamily, 7)
  const MDT_FILES_FREE_PERCENT := Gauge(MdtFamily, 8)
  const MDT_FILES_USED_PERCENT := Gauge(MdtFamily, 9)
  const HSM_ACTION_ERRORS := Gauge(MdtFamily, 10)
  const HSM_CURRENT_REQUESTS := Gauge(MdtFamily, 11)
  const MDT_CLIENT_EVICTIONS := Gauge(MdtFamily, 12)
  const MDT_CONNECTED_CLIENTS := Gauge(MdtFamily, 13)
  const MDT_SAMPLE_TIMESTAMP := Gauge(MdtFamily, 14)
  const MDT_CLIENT_LATENCY := Gauge(MdtOperationFamily, 0)
  const MDT_CLIENT_OPS := Gauge(MdtOperationFamily, 1)
  const MDT_OPERATION_SAMPLE_TIMESTAMP := Gauge(MdtOperationFamily, 2)
  const FILESYSTEM_INFO := Gauge(FilesystemInfoFamily, 0)
  const DISCOVERED_FILESYSTEM_INFO := Gauge(FilesystemInfoFamily, 1)
  const FILESYSTEM_STORAGE_CAPACITY := Gauge(FilesystemCapacityFamily, 0)
  const FILESYSTEM_CONNECTED_CLIENTS := Gauge(FilesystemAggregateFamily, 0)
  const FILESYSTEM_CLIENT_EVICTIONS := Gauge(FilesystemAggregateFamily, 1)
  const METADATA_AMPLIFICATION_RATIO := Gauge(FilesystemAggregateFamily, 2)
  const FILESYSTEM_SAMPLE_MAX_AGE := Gauge(FilesystemAggregateFamily, 3)
  const VM_INFO := Gauge(VmInfoFamily, 0)
  const VM_POWER_STATE := Gauge(VmPowerStateFamily, 0)
  const VM_COUNT_BY_SIZE := Gauge(VmSizeFamily, 0)

  function Arity(family: Family): nat {
    match family
    case VmssFamily => 2
    case OstFamily => 11
    case OstOperationFamily => 3
    case MdtFamily => 15
    case MdtOperationFamily => 3
    case FilesystemInfoFamily => 2
    case FilesystemAggregateFamily => 4
    case _ => 1
  }

  /** Freshness gauges, which keep their value when a sample carries no timestamp. */
  predicate IsSampleTimestamp(gauge: Gauge) {
    gauge == OST_SAMPLE_TIMESTAMP || gauge == OST_OPERATION_SAMPLE_TIMESTAMP
    || gauge == MDT_SAMPLE_TIMESTAMP || gauge == MDT_OPERATION_SAMPLE_TIMESTAMP
  }

  /** What one row does to one gauge at its labels. */
  datatype Effect = Set(value: real) | Remove | Keep

  /** The readings of one sample, in the order they are written; each gauge at most once. */
  datatype Row = Row(family: Family, labels: Labels, readings: seq<(Gauge, Effect)>)

  datatype Series = Series(gauge: Gauge, labels: Labels)
  datatype Active = Active(family: Family, labels: Labels)

  function ActiveOf(s: Series): Active { Active(s.gauge.family, s.labels) }

  datatype Store = Store(series: map<Series, real>, active: set<Active>)

  const EMPTY := Store(map[], {})

  /** The rows of an update and the families it renews. */
  datatype Batch = Batch(rows: seq<Row>, families: set<Family>)

  /** A row reads every gauge of its family, and only a freshness gauge may be kept, never removed. */
  predicate GoodRow(row: Row) {
    && |row.readings| == Arity(row.family)
    && forall i: nat | i < |row.readings| :: GoodReading(row, i)
  }

  predicate GoodReading(row: Row, i: nat)
    requires i < |row.readings|
  {
    var (gauge, effect) := row.readings[i];
    && gauge == Gauge(row.family, i)
    && (effect.Keep? ==> IsSampleTimestamp(gauge))
    && (effect.Remove? ==> !IsSampleTimestamp(gauge))
  }

  predicate GoodBatch(batch: Batch) {
    forall i | 0 <= i < |batch.rows| :: GoodRow(batch.rows[i]) && batch.rows[i].family in batch.families
  }

  // ---------------------------------------------------------------- specification

  function Put(series: map<Series, real>, s: Series, effect: Effect): map<Series, real> {
    match effect
    case Set(v) => series[s := v]
    case Remove => series - {s}
    case Keep => series
  }

  function WriteReadings(series: map<Series, real>, labels: Labels, readings: seq<(Gauge, Effect)>): map<Series, real> {
    if readings == [] then series
    else
      var last := readings[|readings| - 1];
      Put(WriteReadings(series, labels, readings[..|readings| - 1]), Series(last.0, labels), last.1)
  }

  function WriteRows(series: map<Series, real>, rows: seq<Row>): map<Series, real> {
    if rows == [] then series
    else
      var last := rows[|rows| - 1];
      WriteReadings(WriteRows(series, rows[..|rows| - 1]), last.labels, last.readings)
  }

  /** The labelsets a batch reports. */
  function Reported(rows: seq<Row>): set<Active> {
    set row | row in rows :: Active(row.family, row.labels)
  }

  /** The active labelsets of the batch's families that it does not report. */
  function Stale(store: Store, batch: Batch): set<Active> {
    set a | a in store.active && a.family in batch.families && a !in Reported(batch.rows)
  }

  function DropSeries(series: map<Series, real>, stale: set<Active>): map<Series, real> {
    map s | s in series && ActiveOf(s) !in stale :: series[s]
  }

  /** One permitted update. */
  function Publish(store: Store, batch: Batch, removeStale: bool): Store {
    var stale := if removeStale then Stale(store, batch) else {};
    Store(WriteRows(DropSeries(store.series, stale), batch.rows),
          store.active - stale + Reported(batch.rows))
  }

  // ---------------------------------------------------------------- what an update means

  /** What a row does to a series: Keep when it has other labels or no reading of that gauge. */
  function RowEffect(row: Row, s: Series): Effect {
    if row.labels == s.labels then ReadingEffect(row.readings, s.gauge) else Keep
  }

  function ReadingEffect(readings: seq<(Gauge, Effect)>, g: Gauge): Effect {
    if readings == [] then Keep
    else
      var last := readings[|readings| - 1];
      if last.0 == g && !last.1.Keep? then last.1 else ReadingEffect(readings[..|readings| - 1], g)
  }

  /** The last row that touches a series decides it. */
  function LastEffect(rows: seq<Row>, s: Series): Effect {
    if rows == [] then Keep
    else
      var last := RowEffect(rows[|rows| - 1], s);
      if last.Keep? then LastEffect(rows[..|rows| - 1], s) else last
  }

  /** The value an effect leaves, given the value before. */
  function After(effect: Effect, before: Option<real>): Option<real> {
    match effect
    case Set(v) => Some(v)
    case Remove => None
    case Keep => before
  }

  function Lookup(series: map<Series, real>, s: Series): Option<real> {
    if s in series then Some(series[s]) else None
  }

  lemma {:induction false} ReadingsWritten(series: map<Series, real>, labels: Labels, readings: seq<(Gauge, Effect)>, s: Series)
    ensures Lookup(WriteReadings(series, labels, readings), s)
         == if labels == s.labels then After(ReadingEffect(readings, s.gauge), Lookup(series, s))
            else Lookup(series, s)
  {
    if readings == [] {
    } else {
      ReadingsWritten(series, labels, readings[..|readings| - 1], s);
    }
  }

  /** Writing rows one after the other leaves each series as its last writer says. */
  lemma {:induction false} RowsWritten(series: map<Series, real>, rows: seq<Row>, s: Series)
    ensures Lookup(WriteRows(series, rows), s) == After(LastEffect(rows, s), Lookup(series, s))
  {
    if rows == [] {
    } else {
      var n := |rows| - 1;
      RowsWritten(series, rows[..n], s);
      ReadingsWritten(WriteRows(series, rows[..n]), rows[n].labels, rows[n].readings, s);
    }
  }

  /** In a good row, a gauge of the family is written unless it is a freshness gauge. */
  lemma {:induction false} GoodRowWrites(row: Row, n: nat, g: Gauge)
    requires GoodRow(row) && n <= |row.readings|
    ensures g.family != row.family || g.place >= n ==> ReadingEffect(row.readings[..n], g).Keep?
    ensures IsSampleTimestamp(g) ==> !ReadingEffect(row.readings[..n], g).Remove?
    ensures g.family == row.family && g.place < n && !IsSampleTimestamp(g)
            ==> !ReadingEffect(row.readings[..n], g).Keep?
  {
    if n == 0 {
    } else {
      GoodRowWrites(row, n - 1, g);
      assert GoodReading(row, n - 1);
      assert row.readings[..n][..n - 1] == row.readings[..n - 1];
    }
  }

  /** A batch touches exactly the non-freshness series it reports, and of freshness series only those. */
  lemma {:induction false} LastEffectReported(rows: seq<Row>, s: Series)
    requires forall i | 0 <= i < |rows| :: GoodRow(rows[i])
    ensures ActiveOf(s) !in Reported(rows) || s.gauge.place >= Arity(s.gauge.family) ==> LastEffect(rows, s).Keep?
    ensures ActiveOf(s) in Reported(rows) && !IsSampleTimestamp(s.gauge) && s.gauge.place < Arity(s.gauge.family)
            ==> !LastEffect(rows, s).Keep?
    ensures IsSampleTimestamp(s.gauge) ==> !LastEffect(rows, s).Remove?
  {
    if rows == [] {
    } else {
      var n := |rows| - 1;
      var row := rows[n];
      LastEffectReported(rows[..n], s);
      GoodRowWrites(row, |row.readings|, s.gauge);
      assert row.readings[..|row.readings|] == row.readings;
      ReportedOneMore(rows);
    }
  }

  lemma ReportedOneMore(rows: seq<Row>)
    requires rows != []
    ensures var n := |rows| - 1;
            Reported(rows) == Reported(rows[..n]) + {Active(rows[n].family, rows[n].labels)}
  {}

  // ---------------------------------------------------------------- invariants and main results

  /** Every exposed series is indexed by an active labelset of its family. */
  ghost predicate Indexed(store: Store) {
    forall s | s in store.series :: ActiveOf(s) in store.active && s.gauge.place < Arity(s.gauge.family)
  }

  lemma DroppedLookup(series: map<Series, real>, stale: set<Active>, s: Series)
    ensures Lookup(DropSeries(series, stale), s)
         == if ActiveOf(s) in stale then None else Lookup(series, s)
  {}

  /** The value of any series after an update. */
  lemma Published(store: Store, batch: Batch, removeStale: bool, s: Series)
    ensures var dropped := removeStale && ActiveOf(s) in Stale(store, batch);
            Lookup(Publish(store, batch, removeStale).series, s)
            == After(LastEffect(batch.rows, s), if dropped then None else Lookup(store.series, s))
  {
    var stale := if removeStale then Stale(store, batch) else {};
    RowsWritten(DropSeries(store.series, stale), batch.rows, s);
    DroppedLookup(store.series, stale, s);
  }

  /** A series the batch reports but does not write is kept. */
  lemma ReportedKept(store: Store, batch: Batch, removeStale: bool, s: Series)
    requires ActiveOf(s) in Reported(batch.rows) && LastEffect(batch.rows, s).Keep?
    ensures Lookup(Publish(store, batch, removeStale).series, s) == Lookup(store.series, s)
  {
    Published(store, batch, removeStale, s);
  }

  lemma PublishKeepsIndexed(store: Store, batch: Batch, removeStale: bool)
    requires GoodBatch(batch) && Indexed(store)
    ensures Indexed(Publish(store, batch, removeStale))
  {
    var post := Publish(store, batch, removeStale);
    forall s | s in post.series ensures ActiveOf(s) in post.active && s.gauge.place < Arity(s.gauge.family) {
      Published(store, batch, removeStale, s);
      LastEffectReported(batch.rows, s);
    }
  }

  lemma FullUpdateDecides(store: Store, batch: Batch, s: Series)
    requires GoodBatch(batch) && Indexed(store) && s.gauge.family in batch.families
    requires !IsSampleTimestamp(s.gauge) && s.gauge.place < Arity(s.gauge.family)
    ensures Lookup(Publish(store, batch, true).series, s) == After(LastEffect(batch.rows, s), None)
  {
    Published(store, batch, true, s);
    LastEffectReported(batch.rows, s);
  }

  /**
    History independence: after an error-free update every series of its families, freshness
    aside, is decided by the batch alone, whatever the store went through before.
   */
  lemma FullUpdateForgetsHistory(store: Store, batch: Batch, s: Series)
    requires GoodBatch(batch) && Indexed(store) && s.gauge.family in batch.families
    requires !IsSampleTimestamp(s.gauge) && s.gauge.place < Arity(s.gauge.family)
    ensures Lookup(Publish(store, batch, true).series, s) == After(LastEffect(batch.rows, s), None)
    ensures (set a | a in Publish(store, batch, true).active && a.family in batch.families)
         == Reported(batch.rows)
  {
    FullUpdateDecides(store, batch, s);
    ReportedFamilies(batch);
  }

  lemma ReportedFamilies(batch: Batch)
    requires GoodBatch(batch)
    ensures forall a | a in Reported(batch.rows) :: a.family in batch.families
  {}

  /**
    Sticky freshness: a freshness series takes the last timestamp reported for its labels; without
    one it keeps its old value while the labels are still reported, or while stale series are kept.
   */
  lemma FreshnessIsSticky(store: Store, batch: Batch, removeStale: bool, s: Series)
    requires GoodBatch(batch) && Indexed(store) && s.gauge.family in batch.families
    requires IsSampleTimestamp(s.gauge)
    ensures Lookup(Publish(store, batch, removeStale).series, s) ==
            if LastEffect(batch.rows, s).Set? then Some(LastEffect(batch.rows, s).value)
            else if removeStale && ActiveOf(s) !in Reported(batch.rows) then None
            else Lookup(store.series, s)
  {
    Published(store, batch, removeStale, s);
    LastEffectReported(batch.rows, s);
  }

  /**
    Partial-failure frame: an update that keeps stale series changes no series of labels it does
    not report, and the active labelsets only grow.
   */
  lemma PartialUpdateFrame(store: Store, batch: Batch, s: Series)
    requires GoodBatch(batch) && ActiveOf(s) !in Reported(batch.rows)
    ensures Lookup(Publish(store, batch, false).series, s) == Lookup(store.series, s)
    ensures Publish(store, batch, false).active == store.active + Reported(batch.rows)
  {
    Published(store, batch, false, s);
    LastEffectReported(batch.rows, s);
  }

  /** No update touches the families it does not renew. */
  lemma OtherFamiliesUntouched(store: Store, batch: Batch, removeStale: bool, s: Series)
    requires GoodBatch(batch) && s.gauge.family !in batch.families
    ensures Lookup(Publish(store, batch, removeStale).series, s) == Lookup(store.series, s)
  {
    Published(store, batch, removeStale, s);
    LastEffectReported(batch.rows, s);
    ReportedFamilies(batch);
  }
}
