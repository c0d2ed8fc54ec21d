/**
  Every interleaving of collections, failures and leadership changes, as runs over the exporter's
  state. A collection is any number of gated updates with any results, so a result gathered before
  a demotion may arrive after it.
 */
module CollectorRuns {
  import opened Wrappers
  import opened Models
  import opened GaugeStore
  import opened CollectorRows

  /** The unlabelled gauges that summarise collections. */
  datatype Scalars = Scalars(
    vmssTotal: real, lastSuccess: real, duration: real,
    lustreTotal: real, ostSamples: real, lustreLastSuccess: real, lustreDuration: real,
    vmTotal: real, vmLastSuccess: real, vmDuration: real)

  const ZEROS := Scalars(0.0, 0.0, 0.0, 0.0, 0.0, 0.0, 0.0, 0.0, 0.0, 0.0)

  /**
    How far a set_leader call has come: it has moved the beacon towards leader or follower and not
    the event yet, or it has cleared the event and not the gauges yet.
   */
  datatype Change = Settled | Promoting | Demoting | Clearing

  datatype Exporter = Exporter(
    electionEnabled: bool, leader: bool, beacon: real, change: Change, store: Store, scalars: Scalars)

  datatype Op =
    | BeginPromotion
    | Promote
    | BeginDemotion
    | ClearEvent
    | FinishDemotion
    | UpdateVmss(counts: seq<VmssCount>)
    | SummariseVmss(total: nat, at: real, duration: real)
    | FailVmss(duration: real)
    | UpdateVms(vms: seq<StandaloneVm>)
    | SummariseVms(total: nat, at: real, duration: real)
    | FailVms(duration: real)
    | UpdateLustre(samples: LustreSamples, removeStale: bool)
    | SummariseLustre(filesystems: nat, osts: nat, at: real, duration: real)
    | FailLustre(duration: real)

  function Start(electionEnabled: bool): Exporter {
    Exporter(electionEnabled, !electionEnabled, if electionEnabled then 0.0 else 1.0, Settled, EMPTY, ZEROS)
  }

  /** `_can_write_metrics_locked`. */
  predicate CanWrite(e: Exporter) { !e.electionEnabled || e.leader }

  /** set_leader calls are serial: one begins only when the one before it has finished. */
  predicate Serial(e: Exporter, op: Op) {
    match op
    case BeginPromotion => e.change.Settled?
    case Promote => e.change.Promoting?
    case BeginDemotion => e.change.Settled?
    case ClearEvent => e.change.Demoting?
    case FinishDemotion => e.change.Clearing?
    case _ => true
  }

  function Step(cap: int, e: Exporter, op: Op): Exporter {
    match op
    case BeginPromotion => if e.electionEnabled then e.(beacon := 1.0, change := Promoting) else e
    case Promote => e.(leader := true, change := Settled)
    case BeginDemotion => if e.electionEnabled then e.(beacon := 0.0, change := Demoting) else e
    case ClearEvent => e.(leader := false, change := Clearing)
    case FinishDemotion => e.(store := EMPTY, scalars := ZEROS, change := Settled)
    case UpdateVmss(counts) =>
      if CanWrite(e) then e.(store := Publish(e.store, VmssBatch(counts), true)) else e
    case SummariseVmss(total, at, duration) =>
      if CanWrite(e) then
        e.(scalars := e.scalars.(vmssTotal := total as real, lastSuccess := at, duration := duration))
      else e
    case FailVmss(duration) => e.(scalars := e.scalars.(duration := duration))
    case UpdateVms(vms) =>
      if CanWrite(e) then e.(store := Publish(e.store, VmBatch(vms, cap), true)) else e
    case SummariseVms(total, at, duration) =>
      if CanWrite(e) then
        e.(scalars := e.scalars.(vmTotal := total as real, vmLastSuccess := at, vmDuration := duration))
      else e
    case FailVms(duration) => e.(scalars := e.scalars.(vmDuration := duration))
    case UpdateLustre(samples, removeStale) =>
      if CanWrite(e) then e.(store := Publish(e.store, LustreBatch(samples), removeStale)) else e
    case SummariseLustre(filesystems, osts, at, duration) =>
      if CanWrite(e) then
        e.(scalars := e.scalars.(lustreTotal := filesystems as real, ostSamples := osts as real,
                                 lustreLastSuccess := at, lustreDuration := duration))
      else e
    case FailLustre(duration) => e.(scalars := e.scalars.(lustreDuration := duration))
  }

  function Run(cap: int, e: Exporter, ops: seq<Op>): Exporter {
    if ops == [] then e else Step(cap, Run(cap, e, ops[..|ops| - 1]), ops[|ops| - 1])
  }

  ghost predicate SerialRun(cap: int, e: Exporter, ops: seq<Op>) {
    ops != [] ==> SerialRun(cap, e, ops[..|ops| - 1])
                  && Serial(Run(cap, e, ops[..|ops| - 1]), ops[|ops| - 1])
  }

  // ---------------------------------------------------------------- invariants

  /** Families whose every reported label tuple has a value in every gauge. */
  predicate Dense(family: Family) {
    family in VMSS_FAMILIES || family in VM_FAMILIES
    || family == FilesystemInfoFamily || family == FilesystemCapacityFamily
  }

  /** Gauge domains equal the active labelsets. */
  ghost predicate Agrees(store: Store) {
    forall s: Series | Dense(s.gauge.family) && s.gauge.place < Arity(s.gauge.family) ::
      s in store.series <==> ActiveOf(s) in store.active
  }

  /** Nothing labelled is exposed and the totals and last-success times are zero. */
  predicate Hidden(e: Exporter) {
    && e.store == EMPTY
    && e.scalars.(duration := 0.0, lustreDuration := 0.0, vmDuration := 0.0) == ZEROS
  }

  ghost predicate Inv(e: Exporter) {
    && Indexed(e.store) && Agrees(e.store)
    && (!e.leader && !e.change.Clearing? ==> Hidden(e))
    && (e.change.Clearing? ==> !e.leader)
    && (e.change.Settled? ==> e.beacon == if e.leader then 1.0 else 0.0)
    && (e.change.Promoting? ==> e.beacon == 1.0)
    && (e.change.Demoting? || e.change.Clearing? ==> e.beacon == 0.0)
    && (!e.electionEnabled ==> e.leader && e.change.Settled?)
  }

  /** Rows of dense families only set. */
  ghost predicate DenseSets(rows: seq<Row>) {
    forall row | row in rows && Dense(row.family) :: Sets(row)
  }

  lemma {:induction false} SetsNeverRemove(row: Row, n: nat, g: Gauge)
    requires Sets(row) && n <= |row.readings|
    ensures !ReadingEffect(row.readings[..n], g).Remove?
    ensures g.family == row.family && g.place < n ==> ReadingEffect(row.readings[..n], g).Set?
  {
    if n == 0 {
    } else {
      SetsNeverRemove(row, n - 1, g);
      assert GoodReading(row, n - 1);
      assert row.readings[..n][..n - 1] == row.readings[..n - 1];
    }
  }

  lemma {:induction false} DenseLastEffect(rows: seq<Row>, s: Series)
    requires DenseSets(rows) && Dense(s.gauge.family) && s.gauge.place < Arity(s.gauge.family)
    requires forall i | 0 <= i < |rows| :: GoodRow(rows[i])
    ensures ActiveOf(s) in Reported(rows) ==> LastEffect(rows, s).Set?
    ensures ActiveOf(s) !in Reported(rows) ==> LastEffect(rows, s).Keep?
  {
    LastEffectReported(rows, s);
    if rows == [] {
    } else {
      var n := |rows| - 1;
      var row := rows[n];
      DenseLastEffect(rows[..n], s);
      ReportedOneMore(rows);
      if Dense(row.family) {
        SetsNeverRemove(row, |row.readings|, s.gauge);
        assert row.readings[..|row.readings|] == row.readings;
      } else {
        GoodRowWrites(row, |row.readings|, s.gauge);
        assert row.readings[..|row.readings|] == row.readings;
      }
    }
  }

  lemma PublishKeepsAgreement(store: Store, batch: Batch, removeStale: bool)
    requires GoodBatch(batch) && DenseSets(batch.rows) && Agrees(store)
    ensures Agrees(Publish(store, batch, removeStale))
  {
    var post := Publish(store, batch, removeStale);
    forall s: Series | Dense(s.gauge.family) && s.gauge.place < Arity(s.gauge.family)
      ensures s in post.series <==> ActiveOf(s) in post.active
    {
      Published(store, batch, removeStale, s);
      DenseLastEffect(batch.rows, s);
    }
  }

  lemma PublishKeepsInv(e: Exporter, batch: Batch, removeStale: bool)
    requires Inv(e) && CanWrite(e) && GoodBatch(batch) && DenseSets(batch.rows)
    ensures Inv(e.(store := Publish(e.store, batch, removeStale)))
  {
    PublishKeepsIndexed(e.store, batch, removeStale);
    PublishKeepsAgreement(e.store, batch, removeStale);
  }

  lemma LustreDenseSets(samples: LustreSamples)
    ensures GoodBatch(LustreBatch(samples)) && DenseSets(LustreBatch(samples).rows)
  {
    LustreBatchGood(samples);
    forall row | row in LustreRows(samples) && Dense(row.family) ensures Sets(row) {
      assert row.family in LUSTRE_FAMILIES;
    }
  }

  lemma StepKeepsInv(cap: int, e: Exporter, op: Op)
    requires Inv(e) && Serial(e, op)
    ensures Inv(Step(cap, e, op))
  {
    match op {
      case UpdateVmss(counts) =>
        if CanWrite(e) {
          VmssBatchGood(counts);
          PublishKeepsInv(e, VmssBatch(counts), true);
        }
      case UpdateVms(vms) =>
        if CanWrite(e) {
          VmBatchGood(vms, cap);
          PublishKeepsInv(e, VmBatch(vms, cap), true);
        }
      case UpdateLustre(samples, removeStale) =>
        if CanWrite(e) {
          LustreDenseSets(samples);
          PublishKeepsInv(e, LustreBatch(samples), removeStale);
        }
      case _ =>
    }
  }

  lemma {:induction false} RunKeepsInv(cap: int, electionEnabled: bool, ops: seq<Op>)
    requires SerialRun(cap, Start(electionEnabled), ops)
    ensures Inv(Run(cap, Start(electionEnabled), ops))
    ensures Run(cap, Start(electionEnabled), ops).electionEnabled == electionEnabled
  {
    if ops == [] {
    } else {
      RunKeepsInv(cap, electionEnabled, ops[..|ops| - 1]);
      StepKeepsInv(cap, Run(cap, Start(electionEnabled), ops[..|ops| - 1]), ops[|ops| - 1]);
    }
  }

  // ---------------------------------------------------------------- main results

  /** The exporter follows, and no demotion is between clearing the event and clearing the gauges. */
  predicate Follows(e: Exporter) { !e.leader && !e.change.Clearing? }

  /**
    A follower exposes nothing: in every run, whatever collections are in flight, while the leader
    event is clear and no demotion still has to clear the gauges, no labelled series and no active
    labelset exists and the totals and last-success times are zero; between set_leader calls the
    beacon says so.
   */
  lemma FollowerExposesNothing(cap: int, ops: seq<Op>)
    requires SerialRun(cap, Start(true), ops)
    ensures var e := Run(cap, Start(true), ops);
            && (Follows(e) ==> Hidden(e))
            && (e.change.Settled? ==> e.beacon == if e.leader then 1.0 else 0.0)
  {
    RunKeepsInv(cap, true, ops);
  }

  /** The VMSS duration a follower shows: of the last failure since the last demotion, if any. */
  function VmssFailure(ops: seq<Op>): real {
    if ops == [] then 0.0
    else
      match ops[|ops| - 1]
      case FailVmss(duration) => duration
      case FinishDemotion => 0.0
      case _ => VmssFailure(ops[..|ops| - 1])
  }

  function LustreFailure(ops: seq<Op>): real {
    if ops == [] then 0.0
    else
      match ops[|ops| - 1]
      case FailLustre(duration) => duration
      case FinishDemotion => 0.0
      case _ => LustreFailure(ops[..|ops| - 1])
  }

  function VmFailure(ops: seq<Op>): real {
    if ops == [] then 0.0
    else
      match ops[|ops| - 1]
      case FailVms(duration) => duration
      case FinishDemotion => 0.0
      case _ => VmFailure(ops[..|ops| - 1])
  }

  /** The duration gauges of a follower, exactly: each shows the last failure since the last demotion. */
  lemma {:induction false} FollowerDurations(cap: int, ops: seq<Op>)
    requires SerialRun(cap, Start(true), ops)
    ensures var e := Run(cap, Start(true), ops);
            Follows(e) ==>
              && e.scalars.duration == VmssFailure(ops)
              && e.scalars.lustreDuration == LustreFailure(ops)
              && e.scalars.vmDuration == VmFailure(ops)
  {
    if ops == [] {
    } else {
      var n := |ops| - 1;
      FollowerDurations(cap, ops[..n]);
      RunKeepsInv(cap, true, ops[..n]);
    }
  }

  /**
    When a follower exposes only the beacon, as the documentation of set_leader promises: exactly
    when, for each of the three collections, its last failure since the last demotion, if any, took
    no time. A failing collection writes its duration outside the lock, leader or not.
   */
  lemma FollowerExposesOnlyBeaconIff(cap: int, ops: seq<Op>)
    requires SerialRun(cap, Start(true), ops) && Follows(Run(cap, Start(true), ops))
    ensures var e := Run(cap, Start(true), ops);
            e.store == EMPTY && e.scalars == ZEROS
            <==> VmssFailure(ops) == 0.0 && LustreFailure(ops) == 0.0 && VmFailure(ops) == 0.0
  {
    FollowerExposesNothing(cap, ops);
    FollowerDurations(cap, ops);
    var s := Run(cap, Start(true), ops).scalars;
    assert s == s.(duration := 0.0, lustreDuration := 0.0, vmDuration := 0.0)
                 .(duration := s.duration, lustreDuration := s.lustreDuration, vmDuration := s.vmDuration);
  }

  /** Some collection has failed since the last demotion. */
  predicate FailedSinceDemotion(ops: seq<Op>) {
    if ops == [] then false
    else
      var last := ops[|ops| - 1];
      if last.FailVmss? || last.FailVms? || last.FailLustre? then true
      else if last.FinishDemotion? then false
      else FailedSinceDemotion(ops[..|ops| - 1])
  }

  /** Failures take time. */
  predicate FailuresTakeTime(ops: seq<Op>) {
    forall i | 0 <= i < |ops| ::
      match ops[i]
      case FailVmss(duration) => duration > 0.0
      case FailVms(duration) => duration > 0.0
      case FailLustre(duration) => duration > 0.0
      case _ => true
  }

  lemma {:induction false} FailuresShow(ops: seq<Op>)
    requires FailuresTakeTime(ops)
    ensures VmssFailure(ops) >= 0.0 && LustreFailure(ops) >= 0.0 && VmFailure(ops) >= 0.0
    ensures VmssFailure(ops) == 0.0 && LustreFailure(ops) == 0.0 && VmFailure(ops) == 0.0 <==> !FailedSinceDemotion(ops)
  {
    if ops == [] {
    } else {
      var n := |ops| - 1;
      assert forall i | 0 <= i < n :: ops[..n][i] == ops[i];
      FailuresShow(ops[..n]);
    }
  }

  /** In a run whose failures all take time, a follower exposes only the beacon iff nothing failed since its demotion. */
  lemma OnlyBeaconIffNothingFailed(cap: int, ops: seq<Op>)
    requires SerialRun(cap, Start(true), ops) && Follows(Run(cap, Start(true), ops)) && FailuresTakeTime(ops)
    ensures var e := Run(cap, Start(true), ops);
            e.store == EMPTY && e.scalars == ZEROS <==> !FailedSinceDemotion(ops)
  {
    FollowerExposesOnlyBeaconIff(cap, ops);
    FailuresShow(ops);
  }

  /** A follower that never led shows a duration. */
  lemma DurationsEscapeTheGate(cap: int)
    ensures SerialRun(cap, Start(true), [FailVmss(1.0)])
    ensures var e := Run(cap, Start(true), [FailVmss(1.0)]);
            Follows(e) && e.scalars.duration == 1.0
  {
    assert [FailVmss(1.0)][..0] == [];
    assert Run(cap, Start(true), []) == Start(true);
  }

  /**
    Store and index agree over every run: a VMSS, VM or filesystem gauge has a value exactly at
    the active labels of its family.
   */
  lemma StoreMatchesIndex(cap: int, electionEnabled: bool, ops: seq<Op>, s: Series)
    requires SerialRun(cap, Start(electionEnabled), ops)
    requires Dense(s.gauge.family) && s.gauge.place < Arity(s.gauge.family)
    ensures var store := Run(cap, Start(electionEnabled), ops).store;
            s in store.series <==> ActiveOf(s) in store.active
  {
    RunKeepsInv(cap, electionEnabled, ops);
  }

  /** What a permitted error-free Lustre update leaves in a series other than a freshness one. */
  lemma LustreUpdateDecides(cap: int, e: Exporter, samples: LustreSamples, s: Series)
    requires Indexed(e.store) && CanWrite(e) && !IsSampleTimestamp(s.gauge)
    requires s.gauge.family in LUSTRE_FAMILIES && s.gauge.place < Arity(s.gauge.family)
    ensures Lookup(Step(cap, e, UpdateLustre(samples, true)).store.series, s)
         == After(LastEffect(LustreRows(samples), s), None)
  {
    LustreBatchGood(samples);
    FullUpdateDecides(e.store, LustreBatch(samples), s);
  }

  /**
    Any two histories that end with the same permitted error-free Lustre update expose the same
    Lustre series, freshness gauges aside.
   */
  lemma LustreHistoryIndependence(
    cap: int, first: seq<Op>, second: seq<Op>, firstEnabled: bool, secondEnabled: bool,
    samples: LustreSamples, s: Series)
    requires SerialRun(cap, Start(firstEnabled), first) && SerialRun(cap, Start(secondEnabled), second)
    requires CanWrite(Run(cap, Start(firstEnabled), first)) && CanWrite(Run(cap, Start(secondEnabled), second))
    requires s.gauge.family in LUSTRE_FAMILIES && s.gauge.place < Arity(s.gauge.family)
    requires !IsSampleTimestamp(s.gauge)
    ensures Lookup(Run(cap, Start(firstEnabled), first + [UpdateLustre(samples, true)]).store.series, s)
         == Lookup(Run(cap, Start(secondEnabled), second + [UpdateLustre(samples, true)]).store.series, s)
         == After(LastEffect(LustreRows(samples), s), None)
  {
    EndsWithLustre(cap, first, firstEnabled, samples, s);
    EndsWithLustre(cap, second, secondEnabled, samples, s);
  }

  lemma EndsWithLustre(cap: int, ops: seq<Op>, enabled: bool, samples: LustreSamples, s: Series)
    requires SerialRun(cap, Start(enabled), ops) && CanWrite(Run(cap, Start(enabled), ops))
    requires s.gauge.family in LUSTRE_FAMILIES && s.gauge.place < Arity(s.gauge.family)
    requires !IsSampleTimestamp(s.gauge)
    ensures Lookup(Run(cap, Start(enabled), ops + [UpdateLustre(samples, true)]).store.series, s)
         == After(LastEffect(LustreRows(samples), s), None)
  {
    var op := UpdateLustre(samples, true);
    RunKeepsInv(cap, enabled, ops);
    assert (ops + [op])[..|ops|] == ops;
    LustreUpdateDecides(cap, Run(cap, Start(enabled), ops), samples, s);
  }

  /**
    A Lustre update with partial errors leaves every series of labels it did not report as it was,
    and the active labelsets only grow.
   */
  lemma LustrePartialFrame(cap: int, e: Exporter, samples: LustreSamples, s: Series)
    requires CanWrite(e)
    ensures Step(cap, e, UpdateLustre(samples, false)).store.active
         == e.store.active + Reported(LustreRows(samples))
    ensures ActiveOf(s) !in Reported(LustreRows(samples)) ==>
              Lookup(Step(cap, e, UpdateLustre(samples, false)).store.series, s) == Lookup(e.store.series, s)
  {
    LustreBatchGood(samples);
    if ActiveOf(s) !in Reported(LustreRows(samples)) {
      PartialUpdateFrame(e.store, LustreBatch(samples), s);
    }
  }

  /**
    A freshness series of reported labels takes the last timestamp of those labels, and without one
    keeps the value it had, in error-free and partial updates alike.
   */
  lemma LustreFreshness(cap: int, e: Exporter, samples: LustreSamples, removeStale: bool, s: Series)
    requires Indexed(e.store) && CanWrite(e) && IsSampleTimestamp(s.gauge)
    requires ActiveOf(s) in Reported(LustreRows(samples))
    ensures Lookup(Step(cap, e, UpdateLustre(samples, removeStale)).store.series, s)
         == if LastEffect(LustreRows(samples), s).Set? then Some(LastEffect(LustreRows(samples), s).value)
            else Lookup(e.store.series, s)
  {
    LustreBatchGood(samples);
    FreshnessIsSticky(e.store, LustreBatch(samples), removeStale, s);
  }

  // ---------------------------------------------------------------- standalone VMs

  function SumCounts(vms: seq<StandaloneVm>, order: seq<string>): nat {
    if order == [] then 0 else SumCounts(vms, order[..|order| - 1]) + CountOf(vms, order[|order| - 1])
  }

  lemma {:induction false} SumOneMore(vms: seq<StandaloneVm>, order: seq<string>)
    requires vms != [] && Distinct(order)
    ensures SumCounts(vms, order)
         == SumCounts(vms[..|vms| - 1], order) + if vms[|vms| - 1].vmSize in order then 1 else 0
  {
    if order == [] {
    } else {
      var n := |order| - 1;
      SumOneMore(vms, order[..n]);
      assert order == order[..n] + [order[n]];
    }
  }

  /** The published size counts sum to the number of VMs. */
  lemma {:induction false} SizeCountsConserve(vms: seq<StandaloneVm>)
    ensures SumCounts(vms, SizeOrder(vms)) == |vms|
  {
    if vms == [] {
    } else {
      var init, size := vms[..|vms| - 1], vms[|vms| - 1].vmSize;
      SizeCountsConserve(init);
      SizeOrderListsSizes(init);
      SizeOrderListsSizes(vms);
      SumOneMore(vms, SizeOrder(vms));
      if size !in SizeOrder(init) {
        assert SizeOrder(vms)[..|SizeOrder(init)|] == SizeOrder(init);
        assert CountOf(init, size) == 0;
      }
    }
  }

  function PowerSeries(identity: Labels, k: nat): Series
    requires k < 6
  {
    Series(VM_POWER_STATE, identity + [STANDALONE_VM_POWER_STATES[k]])
  }

  /** The last VM with an identity. */
  function LastOf(vms: seq<StandaloneVm>, identity: Labels): Option<StandaloneVm> {
    if vms == [] then None
    else if vms[|vms| - 1].IdentityLabelValues() == identity then Some(vms[|vms| - 1])
    else LastOf(vms[..|vms| - 1], identity)
  }

  lemma {:induction false} LastEffectConcat(xs: seq<Row>, ys: seq<Row>, s: Series)
    ensures LastEffect(xs + ys, s) == if LastEffect(ys, s).Keep? then LastEffect(xs, s) else LastEffect(ys, s)
  {
    if ys == [] {
      assert xs + ys == xs;
    } else {
      var n := |ys| - 1;
      LastEffectConcat(xs, ys[..n], s);
      assert (xs + ys)[..|xs + ys| - 1] == xs + ys[..n];
    }
  }

  /** The rows of one VM set exactly its own six power-state series. */
  lemma {:induction false} PowerRowsEffect(vm: StandaloneVm, n: nat, identity: Labels, k: nat)
    requires n <= 6 && k < 6 && |identity| == 3
    ensures LastEffect(PowerRows(vm, n), PowerSeries(identity, k))
         == if vm.IdentityLabelValues() == identity && k < n then
              Set(if STANDALONE_VM_POWER_STATES[k] == vm.powerState then 1.0 else 0.0)
            else Keep
  {
    if n == 0 {
    } else {
      PowerRowsEffect(vm, n - 1, identity, k);
      var rows, s := PowerRows(vm, n), PowerSeries(identity, k);
      assert rows[..n - 1] == PowerRows(vm, n - 1);
      LabelsSplit(identity, vm.IdentityLabelValues(), STANDALONE_VM_POWER_STATES[k], STANDALONE_VM_POWER_STATES[n - 1]);
      StatesDiffer(k, n - 1);
      var reading := PowerRow(vm, n - 1).readings;
      assert reading[..0] == [];
      assert RowEffect(rows[n - 1], s) ==
        if rows[n - 1].labels == s.labels then reading[0].1 else Keep;
    }
  }

  lemma LabelsSplit(x: Labels, y: Labels, a: string, b: string)
    requires |x| == |y|
    ensures x + [a] == y + [b] <==> x == y && a == b
  {
    if x + [a] == y + [b] {
      assert x == (x + [a])[..|x|] && y == (y + [b])[..|y|];
      assert a == (x + [a])[|x|] && b == (y + [b])[|y|];
    }
  }

  lemma StatesDiffer(i: nat, j: nat)
    requires i < 6 && j < 6
    ensures STANDALONE_VM_POWER_STATES[i] == STANDALONE_VM_POWER_STATES[j] <==> i == j
  {}

  lemma {:induction false} PerVmPowerEffect(vms: seq<StandaloneVm>, identity: Labels, k: nat)
    requires k < 6 && |identity| == 3
    ensures LastEffect(PerVmRows(vms), PowerSeries(identity, k))
         == match LastOf(vms, identity)
            case None => Keep
            case Some(vm) => Set(if STANDALONE_VM_POWER_STATES[k] == vm.powerState then 1.0 else 0.0)
  {
    if vms == [] {
    } else {
      var n := |vms| - 1;
      var s := PowerSeries(identity, k);
      PerVmPowerEffect(vms[..n], identity, k);
      PowerRowsEffect(vms[n], 6, identity, k);
      LastEffectConcat(PerVmRows(vms[..n]) + [VmInfoRow(vms[n])], PowerRows(vms[n], 6), s);
      LastEffectConcat(PerVmRows(vms[..n]), [VmInfoRow(vms[n])], s);
      VmRowsSet(vms[n]);
      OtherFamilyKeeps([VmInfoRow(vms[n])], s);
    }
  }

  lemma OtherFamilyKeeps(rows: seq<Row>, s: Series)
    requires forall i | 0 <= i < |rows| :: GoodRow(rows[i]) && rows[i].family != s.gauge.family
    ensures LastEffect(rows, s).Keep?
  {}

  lemma VmSeries(cap: int, e: Exporter, vms: seq<StandaloneVm>, s: Series)
    requires Indexed(e.store) && CanWrite(e) && s.gauge.family in VM_FAMILIES && s.gauge.place < Arity(s.gauge.family)
    ensures Lookup(Step(cap, e, UpdateVms(vms)).store.series, s) == After(LastEffect(VmBatch(vms, cap).rows, s), None)
  {
    VmBatchIsGood(cap, vms);
    FullUpdateDecides(e.store, VmBatch(vms, cap), s);
  }

  lemma VmBatchIsGood(cap: int, vms: seq<StandaloneVm>)
    ensures GoodBatch(VmBatch(vms, cap)) && VmBatch(vms, cap).families == VM_FAMILIES
    ensures forall g: Gauge | g.family in VM_FAMILIES :: !IsSampleTimestamp(g)
  {
    VmBatchGood(vms, cap);
  }

  /** Up to the cap the rows of the VMs decide the per-VM series. */
  lemma PerVmDecides(cap: int, vms: seq<StandaloneVm>, s: Series)
    requires |vms| <= cap && s.gauge.family != VmSizeFamily
    ensures LastEffect(VmBatch(vms, cap).rows, s) == LastEffect(PerVmRows(vms), s)
  {
    LastEffectConcat(SizeRows(vms, SizeOrder(vms)), PerVmRows(vms), s);
    SizeRowsKeep(SizeRows(vms, SizeOrder(vms)), vms, s);
  }

  /**
    One-hot power states: after a permitted update of at most `cap` VMs, every reported identity
    has a value in each of the six states, 1 in the state of its last VM and 0 in the others; so
    exactly one is 1 when that state is one of the six.
   */
  lemma PowerStateOneHot(cap: int, e: Exporter, vms: seq<StandaloneVm>, identity: Labels, k: nat)
    requires Indexed(e.store) && CanWrite(e) && |vms| <= cap && k < 6
    requires |identity| == 3 && LastOf(vms, identity).Some?
    ensures Lookup(Step(cap, e, UpdateVms(vms)).store.series,
                   PowerSeries(identity, k))
         == Some(if STANDALONE_VM_POWER_STATES[k] == LastOf(vms, identity).value.powerState then 1.0 else 0.0)
  {
    var s := PowerSeries(identity, k);
    VmSeries(cap, e, vms, s);
    PerVmDecides(cap, vms, s);
    PerVmPowerEffect(vms, identity, k);
  }

  /** Above the cap no per-VM series remains. */
  lemma CapSuppressesPerVm(cap: int, e: Exporter, vms: seq<StandaloneVm>, s: Series)
    requires Indexed(e.store) && CanWrite(e) && |vms| > cap
    requires s.gauge == VM_INFO || s.gauge == VM_POWER_STATE
    ensures s !in Step(cap, e, UpdateVms(vms)).store.series
  {
    VmSeries(cap, e, vms, s);
    SizeRowsKeep(SizeRows(vms, SizeOrder(vms)), vms, s);
    assert VmBatch(vms, cap).rows == SizeRows(vms, SizeOrder(vms));
  }

  lemma SizeRowsKeep(rows: seq<Row>, vms: seq<StandaloneVm>, s: Series)
    requires rows == SizeRows(vms, SizeOrder(vms)) && s.gauge.family != VmSizeFamily
    ensures LastEffect(rows, s).Keep?
  {
    SizeRowsGood(vms, SizeOrder(vms));
    OtherFamilyKeeps(rows, s);
  }

  /** At any inventory size each size gauge is the number of VMs of that size, absent sizes aside. */
  lemma SizeGaugesCount(cap: int, e: Exporter, vms: seq<StandaloneVm>, labels: Labels)
    requires Indexed(e.store) && CanWrite(e)
    ensures Lookup(Step(cap, e, UpdateVms(vms)).store.series, Series(VM_COUNT_BY_SIZE, labels))
         == if |labels| == 1 && CountOf(vms, labels[0]) > 0 then Some(CountOf(vms, labels[0]) as real) else None
  {
    var s, sizes := Series(VM_COUNT_BY_SIZE, labels), SizeRows(vms, SizeOrder(vms));
    var others := if |vms| > cap then [] else PerVmRows(vms);
    VmSeries(cap, e, vms, s);
    LastEffectConcat(sizes, others, s);
    PerVmRowsGood(vms);
    OtherFamilyKeeps(others, s);
    SizeEffect(vms, SizeOrder(vms), labels);
    SizeOrderListsSizes(vms);
  }

  lemma {:induction false} SizeEffect(vms: seq<StandaloneVm>, order: seq<string>, labels: Labels)
    ensures LastEffect(SizeRows(vms, order), Series(VM_COUNT_BY_SIZE, labels))
         == if |labels| == 1 && labels[0] in order then Set(CountOf(vms, labels[0]) as real) else Keep
  {
    if order == [] {
    } else {
      var n := |order| - 1;
      SizeEffect(vms, order[..n], labels);
      var rows := SizeRows(vms, order);
      assert rows[..n] == SizeRows(vms, order[..n]);
      assert rows[n].readings[..0] == [];
      assert order == order[..n] + [order[n]];
    }
  }
}
