/**
  Which figure each scale-set and VM gauge shows after an update, and which totals a collection
  writes: labels, states and fields are spelled out.
 */
module InventoryFigures {
  import opened Wrappers
  import opened Models
  import opened GaugeStore
  import opened CollectorRows
  import opened CollectorRuns
  import GaugeFigures

  // ---------------------------------------------------------------- VM Scale Sets

  /** A scale-set update of an exporter in any state. */
  datatype VmssUpdate = VmssUpdate(cap: int, exporter: Exporter, counts: seq<VmssCount>)
  {
    predicate Permitted() { exporter.electionEnabled ==> exporter.leader }

    /** The value of a gauge after the update. */
    function Shown(gauge: Gauge, labels: Labels): Option<real> {
      Lookup(Step(cap, exporter, UpdateVmss(counts)).store.series, Series(gauge, labels))
    }
  }

  lemma SingleEffect(row: Row, s: Series)
    requires GoodRow(row)
    ensures LastEffect([row], s) == RowEffect(row, s)
    ensures s.gauge.family != row.family ==> RowEffect(row, s).Keep?
  {
    assert [row][..0] == [];
    GoodRowWrites(row, |row.readings|, s.gauge);
    assert row.readings[..|row.readings|] == row.readings;
  }

  lemma StateRowEffect(count: VmssCount, i: nat, labels: Labels, k: nat)
    requires i < 5 && k < 5 && |labels| == 5
    ensures RowEffect(StateRow(count, i), Series(INSTANCE_COUNT_BY_STATE, labels + [VMSS_INSTANCE_STATES[k]]))
         == if count.LabelValues() == labels && i == k then Set(count.StateCounts()[k].1) else Keep
  {
    LabelsSplit(labels, count.LabelValues(), VMSS_INSTANCE_STATES[k], VMSS_INSTANCE_STATES[i]);
    VmssStatesDiffer(k, i);
    VmssRowsSet(count);
    GaugeFigures.EffectAt(StateRow(count, i), 0);
  }

  /** The rows of one scale set set exactly its own five state series. */
  lemma {:induction false} StateRowsEffect(count: VmssCount, n: nat, labels: Labels, k: nat)
    requires n <= 5 && k < 5 && |labels| == 5
    ensures LastEffect(StateRows(count, n), Series(INSTANCE_COUNT_BY_STATE, labels + [VMSS_INSTANCE_STATES[k]]))
         == if count.LabelValues() == labels && k < n then Set(count.StateCounts()[k].1) else Keep
  {
    if n == 0 {
    } else {
      StateRowsEffect(count, n - 1, labels, k);
      StateRowEffect(count, n - 1, labels, k);
      assert StateRows(count, n)[..n - 1] == StateRows(count, n - 1);
    }
  }

  lemma VmssStatesDiffer(i: nat, j: nat)
    requires i < 5 && j < 5
    ensures VMSS_INSTANCE_STATES[i] == VMSS_INSTANCE_STATES[j] <==> i == j
  {}

  /** What the rows of one scale set do to a series. */
  lemma VmssRowsEffect(counts: seq<VmssCount>, s: Series)
    requires counts != []
    ensures var n := |counts| - 1;
            LastEffect(VmssRows(counts), s) ==
            match s.gauge.family
            case VmssFamily =>
              if RowEffect(CountRow(counts[n]), s).Keep? then LastEffect(VmssRows(counts[..n]), s)
              else RowEffect(CountRow(counts[n]), s)
            case VmssStateFamily =>
              if LastEffect(StateRows(counts[n], 5), s).Keep? then LastEffect(VmssRows(counts[..n]), s)
              else LastEffect(StateRows(counts[n], 5), s)
            case VmssInfoFamily =>
              if RowEffect(InfoRow(counts[n]), s).Keep? then LastEffect(VmssRows(counts[..n]), s)
              else RowEffect(InfoRow(counts[n]), s)
            case _ => LastEffect(VmssRows(counts[..n]), s)
  {
    var n := |counts| - 1;
    var init, count := VmssRows(counts[..n]), counts[n];
    VmssRowsSet(count);
    LastEffectConcat(init + [CountRow(count)] + StateRows(count, 5), [InfoRow(count)], s);
    LastEffectConcat(init + [CountRow(count)], StateRows(count, 5), s);
    LastEffectConcat(init, [CountRow(count)], s);
    SingleEffect(CountRow(count), s);
    SingleEffect(InfoRow(count), s);
    if s.gauge.family != VmssStateFamily {
      OtherFamilyKeeps(StateRows(count, 5), s);
    }
  }

  lemma CountRowEffect(count: VmssCount, labels: Labels)
    ensures RowEffect(CountRow(count), Series(INSTANCE_COUNT, labels))
         == if count.LabelValues() == labels then Set(count.actual) else Keep
    ensures RowEffect(CountRow(count), Series(CAPACITY, labels))
         == if count.LabelValues() == labels then Set(count.capacity) else Keep
    ensures RowEffect(InfoRow(count), Series(VMSS_INFO, labels))
         == if count.InfoLabelValues() == labels then Set(1.0) else Keep
  {
    VmssRowsSet(count);
    GaugeFigures.EffectAt(CountRow(count), 0);
    GaugeFigures.EffectAt(CountRow(count), 1);
    GaugeFigures.EffectAt(InfoRow(count), 0);
  }

  /** No later scale set has its labels. */
  ghost predicate LastVmss(counts: seq<VmssCount>, i: nat) {
    i < |counts| && forall j | i < j < |counts| :: counts[j].LabelValues() != counts[i].LabelValues()
  }

  lemma {:induction false} VmssCountLast(counts: seq<VmssCount>, i: nat)
    requires LastVmss(counts, i)
    ensures var rows, c := VmssRows(counts), counts[i];
            && LastEffect(rows, Series(INSTANCE_COUNT, c.LabelValues())) == Set(c.actual)
            && LastEffect(rows, Series(CAPACITY, c.LabelValues())) == Set(c.capacity)
  {
    var n, labels := |counts| - 1, counts[i].LabelValues();
    VmssRowsEffect(counts, Series(INSTANCE_COUNT, labels));
    VmssRowsEffect(counts, Series(CAPACITY, labels));
    CountRowEffect(counts[n], labels);
    if i < n {
      assert counts[..n][i] == counts[i];
      assert forall j | i < j < n :: counts[..n][j] == counts[j];
      VmssCountLast(counts[..n], i);
    }
  }

  lemma {:induction false} VmssStateLast(counts: seq<VmssCount>, i: nat, k: nat)
    requires LastVmss(counts, i) && k < 5
    ensures var c := counts[i];
            LastEffect(VmssRows(counts), Series(INSTANCE_COUNT_BY_STATE, c.LabelValues() + [VMSS_INSTANCE_STATES[k]]))
            == Set(c.StateCounts()[k].1)
  {
    var n, labels := |counts| - 1, counts[i].LabelValues();
    VmssRowsEffect(counts, Series(INSTANCE_COUNT_BY_STATE, labels + [VMSS_INSTANCE_STATES[k]]));
    StateRowsEffect(counts[n], 5, labels, k);
    if i < n {
      assert counts[..n][i] == counts[i];
      assert forall j | i < j < n :: counts[..n][j] == counts[j];
      VmssStateLast(counts[..n], i, k);
    }
  }

  lemma {:induction false} VmssInfoSet(counts: seq<VmssCount>, i: nat)
    requires i < |counts|
    ensures LastEffect(VmssRows(counts), Series(VMSS_INFO, counts[i].InfoLabelValues())) == Set(1.0)
  {
    var n, labels := |counts| - 1, counts[i].InfoLabelValues();
    VmssRowsEffect(counts, Series(VMSS_INFO, labels));
    CountRowEffect(counts[n], labels);
    if i < n {
      assert counts[..n][i] == counts[i];
      VmssInfoSet(counts[..n], i);
    }
  }

  /** The gauges of a scale set whose labels no later one has. */
  lemma VmssFigures(u: VmssUpdate, i: nat)
    requires u.Permitted() && LastVmss(u.counts, i)
    ensures var c := u.counts[i];
            var labels := [c.subscriptionId, c.resourceGroup, c.vmssName, c.location, c.orchestrationMode];
            && u.Shown(INSTANCE_COUNT, labels) == Some(c.actual)
            && u.Shown(CAPACITY, labels) == Some(c.capacity)
            && u.Shown(INSTANCE_COUNT_BY_STATE, labels + ["running"]) == Some(c.running)
            && u.Shown(INSTANCE_COUNT_BY_STATE, labels + ["stopped"]) == Some(c.stopped)
            && u.Shown(INSTANCE_COUNT_BY_STATE, labels + ["deallocated"]) == Some(c.deallocated)
            && u.Shown(INSTANCE_COUNT_BY_STATE, labels + ["failed"]) == Some(c.failed)
            && u.Shown(INSTANCE_COUNT_BY_STATE, labels + ["unknown"]) == Some(c.unknown)
            && u.Shown(VMSS_INFO, labels + [c.vmSize, c.skuTier]) == Some(1.0)
  {
    var c := u.counts[i];
    var labels := [c.subscriptionId, c.resourceGroup, c.vmssName, c.location, c.orchestrationMode];
    VmssCountLast(u.counts, i);
    VmssShown(u, Series(INSTANCE_COUNT, labels));
    VmssShown(u, Series(CAPACITY, labels));
    forall k: nat | k < 5
      ensures u.Shown(INSTANCE_COUNT_BY_STATE, labels + [VMSS_INSTANCE_STATES[k]]) == Some(c.StateCounts()[k].1)
    {
      VmssStateLast(u.counts, i, k);
      VmssShown(u, Series(INSTANCE_COUNT_BY_STATE, labels + [VMSS_INSTANCE_STATES[k]]));
    }
    VmssStateNames(c);
    VmssInfoSet(u.counts, i);
    assert labels + [c.vmSize, c.skuTier] == c.InfoLabelValues();
    VmssShown(u, Series(VMSS_INFO, c.InfoLabelValues()));
  }

  lemma VmssStateNames(c: VmssCount)
    ensures VMSS_INSTANCE_STATES[0] == "running" && c.StateCounts()[0].1 == c.running
    ensures VMSS_INSTANCE_STATES[1] == "stopped" && c.StateCounts()[1].1 == c.stopped
    ensures VMSS_INSTANCE_STATES[2] == "deallocated" && c.StateCounts()[2].1 == c.deallocated
    ensures VMSS_INSTANCE_STATES[3] == "failed" && c.StateCounts()[3].1 == c.failed
    ensures VMSS_INSTANCE_STATES[4] == "unknown" && c.StateCounts()[4].1 == c.unknown
  {}

  lemma VmssShown(u: VmssUpdate, s: Series)
    requires u.Permitted() && LastEffect(VmssRows(u.counts), s).Set?
    ensures u.Shown(s.gauge, s.labels) == Some(LastEffect(VmssRows(u.counts), s).value)
  {
    Published(u.exporter.store, VmssBatch(u.counts), true, s);
  }

  /** A scale-set gauge whose labels no scale set has is gone. */
  lemma VmssGone(u: VmssUpdate, labels: Labels)
    requires u.Permitted() && Indexed(u.exporter.store)
    ensures (forall c | c in u.counts ::
               labels != [c.subscriptionId, c.resourceGroup, c.vmssName, c.location, c.orchestrationMode])
            ==> u.Shown(INSTANCE_COUNT, labels) == u.Shown(CAPACITY, labels) == None
    ensures (forall c | c in u.counts ::
               labels != [c.subscriptionId, c.resourceGroup, c.vmssName, c.location, c.orchestrationMode,
                          c.vmSize, c.skuTier])
            ==> u.Shown(VMSS_INFO, labels) == None
  {
    VmssLabelsetsReported(u.counts);
    VmssUnreported(u, Series(INSTANCE_COUNT, labels));
    VmssUnreported(u, Series(CAPACITY, labels));
    VmssUnreported(u, Series(VMSS_INFO, labels));
  }

  lemma VmssStateGone(u: VmssUpdate, labels: Labels)
    requires u.Permitted() && Indexed(u.exporter.store)
    ensures (forall c, state | c in u.counts && state in VMSS_INSTANCE_STATES ::
               labels != [c.subscriptionId, c.resourceGroup, c.vmssName, c.location, c.orchestrationMode] + [state])
            ==> u.Shown(INSTANCE_COUNT_BY_STATE, labels) == None
  {
    VmssLabelsetsReported(u.counts);
    VmssUnreported(u, Series(INSTANCE_COUNT_BY_STATE, labels));
  }

  lemma VmssUnreported(u: VmssUpdate, s: Series)
    requires u.Permitted() && Indexed(u.exporter.store) && s.gauge.family in VMSS_FAMILIES
    ensures ActiveOf(s) !in Reported(VmssRows(u.counts)) ==> u.Shown(s.gauge, s.labels) == None
  {
    if ActiveOf(s) !in Reported(VmssRows(u.counts)) {
      VmssBatchGood(u.counts);
      Published(u.exporter.store, VmssBatch(u.counts), true, s);
      LastEffectReported(VmssRows(u.counts), s);
    }
  }

  // ---------------------------------------------------------------- standalone VMs

  /** A VM update of an exporter in any state. */
  datatype VmUpdate = VmUpdate(cap: int, exporter: Exporter, vms: seq<StandaloneVm>)
  {
    predicate Permitted() { exporter.electionEnabled ==> exporter.leader }

    /** The value of a gauge after the update. */
    function Shown(gauge: Gauge, labels: Labels): Option<real> {
      Lookup(Step(cap, exporter, UpdateVms(vms)).store.series, Series(gauge, labels))
    }
  }

  lemma {:induction false} LastOfMeaning(vms: seq<StandaloneVm>, identity: Labels)
    ensures LastOf(vms, identity).None? <==> forall vm | vm in vms :: vm.IdentityLabelValues() != identity
    ensures forall i | 0 <= i < |vms| && vms[i].IdentityLabelValues() == identity
                       && (forall j | i < j < |vms| :: vms[j].IdentityLabelValues() != identity) ::
              LastOf(vms, identity) == Some(vms[i])
  {
    if vms == [] {
    } else {
      var n := |vms| - 1;
      LastOfMeaning(vms[..n], identity);
      assert vms == vms[..n] + [vms[n]];
      forall i | 0 <= i < |vms| && vms[i].IdentityLabelValues() == identity
                 && (forall j | i < j < |vms| :: vms[j].IdentityLabelValues() != identity)
        ensures LastOf(vms, identity) == Some(vms[i])
      {
        if i < n {
          assert vms[..n][i] == vms[i];
          assert forall j | i < j < n :: vms[..n][j] == vms[j];
        }
      }
    }
  }

  lemma {:induction false} VmInfoEffect(vms: seq<StandaloneVm>, labels: Labels)
    ensures LastEffect(PerVmRows(vms), Series(VM_INFO, labels))
         == if exists vm :: vm in vms && vm.InfoLabelValues() == labels then Set(1.0) else Keep
  {
    if vms == [] {
    } else {
      var n, s := |vms| - 1, Series(VM_INFO, labels);
      VmInfoEffect(vms[..n], labels);
      assert vms == vms[..n] + [vms[n]];
      VmRowsSet(vms[n]);
      LastEffectConcat(PerVmRows(vms[..n]) + [VmInfoRow(vms[n])], PowerRows(vms[n], 6), s);
      LastEffectConcat(PerVmRows(vms[..n]), [VmInfoRow(vms[n])], s);
      OtherFamilyKeeps(PowerRows(vms[n], 6), s);
      SingleEffect(VmInfoRow(vms[n]), s);
      GaugeFigures.EffectAt(VmInfoRow(vms[n]), 0);
    }
  }

  /** The gauges of a VM: its info, and its power state if no later VM has its identity. */
  lemma VmFigures(u: VmUpdate, i: nat, state: string)
    requires u.Permitted() && Indexed(u.exporter.store) && |u.vms| <= u.cap && i < |u.vms|
    requires state in ["running", "stopped", "deallocated", "starting", "stopping", "unknown"]
    ensures var vm := u.vms[i];
            && u.Shown(VM_INFO, [vm.subscriptionId, vm.resourceGroup, vm.vmName, vm.vmId, vm.location, vm.zone,
                                 vm.vmSize, vm.osType])
               == Some(1.0)
            && ((forall j | i < j < |u.vms| ::
                   [u.vms[j].subscriptionId, u.vms[j].resourceGroup, u.vms[j].vmName]
                   != [vm.subscriptionId, vm.resourceGroup, vm.vmName])
                ==> u.Shown(VM_POWER_STATE, [vm.subscriptionId, vm.resourceGroup, vm.vmName, state])
                    == Some(if vm.powerState == state then 1.0 else 0.0))
  {
    var vm := u.vms[i];
    var identity := [vm.subscriptionId, vm.resourceGroup, vm.vmName];
    VmInfoEffect(u.vms, vm.InfoLabelValues());
    VmShown(u, Series(VM_INFO, vm.InfoLabelValues()));
    if forall j | i < j < |u.vms| :: u.vms[j].IdentityLabelValues() != identity {
      var k :| 0 <= k < 6 && STANDALONE_VM_POWER_STATES[k] == state;
      LastOfMeaning(u.vms, identity);
      PowerStateOneHot(u.cap, u.exporter, u.vms, identity, k);
      assert identity + [state] == [vm.subscriptionId, vm.resourceGroup, vm.vmName, state];
    }
  }

  lemma VmShown(u: VmUpdate, s: Series)
    requires u.Permitted() && Indexed(u.exporter.store) && |u.vms| <= u.cap
    requires s.gauge == VM_INFO || s.gauge == VM_POWER_STATE
    ensures u.Shown(s.gauge, s.labels) == After(LastEffect(PerVmRows(u.vms), s), None)
  {
    VmSeries(u.cap, u.exporter, u.vms, s);
    PerVmDecides(u.cap, u.vms, s);
  }

  /** The info gauge of labels no VM has is gone. */
  lemma VmInfoGone(u: VmUpdate, labels: Labels)
    requires u.Permitted() && Indexed(u.exporter.store)
    requires forall vm | vm in u.vms ::
               labels != [vm.subscriptionId, vm.resourceGroup, vm.vmName, vm.vmId, vm.location, vm.zone,
                          vm.vmSize, vm.osType]
    ensures u.Shown(VM_INFO, labels) == None
  {
    if |u.vms| > u.cap {
      CapSuppressesPerVm(u.cap, u.exporter, u.vms, Series(VM_INFO, labels));
    } else {
      VmInfoEffect(u.vms, labels);
      VmShown(u, Series(VM_INFO, labels));
    }
  }

  /** The power states of an identity no VM has are gone. */
  lemma VmPowerGone(u: VmUpdate, identity: Labels, k: nat)
    requires u.Permitted() && Indexed(u.exporter.store) && |identity| == 3 && k < 6
    requires forall vm | vm in u.vms :: identity != [vm.subscriptionId, vm.resourceGroup, vm.vmName]
    ensures u.Shown(VM_POWER_STATE, identity + [STANDALONE_VM_POWER_STATES[k]]) == None
  {
    var s := PowerSeries(identity, k);
    if |u.vms| > u.cap {
      CapSuppressesPerVm(u.cap, u.exporter, u.vms, s);
    } else {
      LastOfMeaning(u.vms, identity);
      PerVmPowerEffect(u.vms, identity, k);
      VmShown(u, s);
    }
  }

  /** The positions of the VMs of a size. */
  function Positions(vms: seq<StandaloneVm>, size: string): set<int> {
    set i | 0 <= i < |vms| && vms[i].vmSize == size
  }

  lemma PositionsOneMore(vms: seq<StandaloneVm>, size: string)
    requires vms != []
    ensures var n := |vms| - 1;
            Positions(vms, size) == Positions(vms[..n], size) + if vms[n].vmSize == size then {n} else {}
  {}

  /** CountOf is how many VMs have the size. */
  lemma {:induction false} CountMeaning(vms: seq<StandaloneVm>, size: string)
    ensures CountOf(vms, size) == |Positions(vms, size)|
  {
    if vms == [] {
    } else {
      CountMeaning(vms[..|vms| - 1], size);
      PositionsOneMore(vms, size);
    }
  }

  // ---------------------------------------------------------------- totals

  /** An exporter that may not write ignores every update and summary. */
  lemma FollowerIgnores(cap: int, e: Exporter, op: Op)
    requires e.electionEnabled && !e.leader
    requires || op.UpdateVmss? || op.UpdateVms? || op.UpdateLustre?
             || op.SummariseVmss? || op.SummariseVms? || op.SummariseLustre?
    ensures Step(cap, e, op) == e
  {}

  /** The totals a permitted summary writes, all others as before; a failure writes its duration. */
  lemma TotalsWritten(cap: int, e: Exporter, n: nat, osts: nat, at: real, duration: real)
    ensures var s := e.scalars;
            && ((e.electionEnabled ==> e.leader) ==>
                && Step(cap, e, SummariseVmss(n, at, duration)).scalars
                   == Scalars(n as real, at, duration, s.lustreTotal, s.ostSamples, s.lustreLastSuccess, s.lustreDuration,
                              s.vmTotal, s.vmLastSuccess, s.vmDuration)
                && Step(cap, e, SummariseLustre(n, osts, at, duration)).scalars
                   == Scalars(s.vmssTotal, s.lastSuccess, s.duration, n as real, osts as real, at, duration,
                              s.vmTotal, s.vmLastSuccess, s.vmDuration)
                && Step(cap, e, SummariseVms(n, at, duration)).scalars
                   == Scalars(s.vmssTotal, s.lastSuccess, s.duration, s.lustreTotal, s.ostSamples, s.lustreLastSuccess,
                              s.lustreDuration, n as real, at, duration))
            && Step(cap, e, FailVmss(duration)) == e.(scalars := s.(duration := duration))
            && Step(cap, e, FailLustre(duration)) == e.(scalars := s.(lustreDuration := duration))
            && Step(cap, e, FailVms(duration)) == e.(scalars := s.(vmDuration := duration))
  {}
}
