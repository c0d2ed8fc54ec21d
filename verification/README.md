# Verified model of the VMSS metrics exporter

A Dafny model of the parts of the repository where correctness depends on more than one function:

* **Leader election** (`leader_election.py`). `Leases` holds the decisions on a record that both views
  share. `ElectionProtocol` is a timed transition system: any number of candidates share one
  `coordination.k8s.io/v1` Lease replaced by compare-and-swap; each attempt is split into taking the
  timestamp, the server read, the server write and learning the result, and a write may land although
  its client sees an error, also after the client gave up. Time is real-valued and every delay is a
  parameter: attempt, started callback, retry wait. `ElectionLineage` (timing-free invariants),
  `ElectionSafety` (timed mutual exclusion, step-down), `ElectionExactness` (the timing condition is
  necessary), `ElectionFailover` (bounded failover, what a release leaves behind), `ElectionSteps`
  (what each step does, attribute by attribute). `LeaderElection` is
  the object of one process: configuration, the election class with its flag, observation and loops,
  and the supervisor's waits.
* **The exporter's gauge store under leadership gating** (`collector.py`). `GaugeStore` is the generic
  effect of one gated update on gauges and active labelsets; `CollectorRows` the rows each collection
  writes; `CollectorRuns` all interleavings of collections, failures and leadership changes;
  `GaugeFigures` and `InventoryFigures` which figure every single gauge shows after an update;
  `Collector` the class whose methods perform the remove and set loops in place.
* **Azure Monitor normalisation** (`azure_managed_lustre.py`) in `LustreNormalisation`, with what a
  response says in `LustreReadings`, and the **per-filesystem aggregation** (`models.py`) in
  `LustreAggregation`, with the figures of one row in `LustreAggregateRows`, over the records of `Models`.
* **The workload simulator** (`scripts/av_lustre_workload.py`): `WorkloadSelection` (shards, greedy
  selection), `WorkloadPercentile` (percentiles, summaries, SLO verdict), `WorkloadChunks` and
  `WorkloadFill` (the write-only loop), `FillSteps` (its tests in order), `WorkloadRepeats` (which of its runs repeat or under-count),
  `WorkloadPaths` (path confinement and file names).

Numbers are exact: seconds, gauge values and latencies are reals, counters unbounded integers; the
one width the code depends on, the eight-byte chunk counter, is written out.

## Where the code and its documentation differ

The model follows the code.

* Mutual exclusion does not follow from a valid configuration. When attempts may last one request
  timeout it holds exactly when the lease covers the renew deadline, one retry wait, the started
  callback and three attempts; neither the defaults nor the deployed seconds do.
* "Capped at 60 seconds" (`run_forever`) holds exactly for retry periods up to 60 seconds. The
  environment setting is limited to that (`config.py:197-199`), so only direct use of the
  configuration class goes beyond.
* A released Lease can be taken back by the releasing candidate itself: a renewal already past its
  loop test accepts the empty holder. The exact condition is proved.
* "A follower exposes only the beacon" (`set_leader`) holds for labelled series, totals and
  last-success times; a failing collection writes its duration gauge outside the lock. The promise
  holds in full exactly when no collection has failed, with a nonzero duration last, since the
  follower's last demotion.
* "Two chunks never repeat verbatim" holds for every run when a file leaves nothing or at least eight
  bytes over its full chunks; otherwise an undisturbed run breaks it from an exactly proved number of
  files on.
* Bytes accounted for equal bytes handed to the file exactly for chunks of at least eight bytes (or
  when nothing was written), because the stamp lengthens a shorter buffer. Bytes of a file that fails
  and is opened again stay in the total although the opening discards them: disk and total agree
  exactly when no pass opens a file of which a failed pass left a part.

## Model

| member | source | states |
|---|---|---|
| ElectionLineage.ReachableInv | src/vmss_metrics_exporter/leader_election.py:211-361 | Over every interleaving: each committed record is computed from its immediate predecessor, everything in transit was computed from a committed record, and flag and thread agree |
| ElectionLineage.TransitionsCountHandovers | src/vmss_metrics_exporter/leader_election.py:325-331 | leaseTransitions grows by exactly the number of acquire writes over somebody else's record and never decreases; renewals, releases and self-acquisitions add zero, reported or not |
| ElectionLineage.NoTheft | src/vmss_metrics_exporter/leader_election.py:315-331 | Without any timing assumption, a non-empty holder is replaced only by its own release or by a candidate that observed that very version for at least the record's own duration, with no write in between |
| ElectionLineage.FlagFollowsCallbacks | src/vmss_metrics_exporter/leader_election.py:211-272 | Started callbacks minus falls of the flag is the flag; each fall issues at most one stopped callback, and exactly one while the candidate is not stopping; every exit of run(), by stop or by a 401, leaves the flag down |
| ElectionSafety.MutualExclusion | src/vmss_metrics_exporter/leader_election.py:211-361 | When the lease covers renew deadline, retry wait, callback and three attempts, at most one non-stopping candidate leads in every reachable state |
| ElectionSafety.LeaderHoldsLease | src/vmss_metrics_exporter/leader_election.py:247-258 | Under the same condition the stored holder is the non-stopping leader |
| ElectionSafety.StepsDown | src/vmss_metrics_exporter/leader_election.py:274-299 | A non-stopping leader leads only until its last confirmed success plus deadline, wait and attempt (plus the callback in a term without a renewal), whatever fails; a foreign record ends the lead at the read itself (ElectionSteps.RenewReadDecides) |
| ElectionSafety.NoRivalLands | src/vmss_metrics_exporter/leader_election.py:315-331 | While a claim stands and its lease runs, the only write that can land is the claimant's own acquire or renewal |
| ElectionExactness.TwoLeaders | src/vmss_metrics_exporter/leader_election.py:274-299 | When the lease falls short of the bound by any amount, and some number of failing attempts can end just before the renew deadline, some run has two non-stopping leaders |
| ElectionExactness.MutualExclusionIffCovered | src/vmss_metrics_exporter/leader_election.py:54-68 | Where failing attempts can end just before the renew deadline, mutual exclusion over all reachable states holds if and only if the lease covers the bounds |
| ElectionExactness.LongAttemptsFill | src/vmss_metrics_exporter/leader_election.py:274-299 | Attempts that may last a retry period can end just before the renew deadline |
| ElectionFailover.FailoverBound | src/vmss_metrics_exporter/leader_election.py:315-331 | Facing an unchanging foreign record, every attempt before first observation plus duration is refused, the first one after it is sent and would land, and it begins within one wait and one attempt |
| ElectionFailover.WinningAttemptLeads | src/vmss_metrics_exporter/leader_election.py:215-218 | An acquire that lands and is reported makes the candidate leader |
| ElectionFailover.SilencedStaysOut | src/vmss_metrics_exporter/leader_election.py:227-240 | A stopping candidate with no live attempt never becomes holder again, over any run |
| ElectionFailover.ReleaseStandsIffSilenced | src/vmss_metrics_exporter/leader_election.py:350-361 | After a release, the releasing candidate can never become holder again if and only if it has no live attempt |
| ElectionFailover.ReleaseCanBeUndone | src/vmss_metrics_exporter/leader_election.py:350-361 | A reachable released Lease that its stopping candidate takes back |
| ElectionSteps.RenewReadDecides | src/vmss_metrics_exporter/leader_election.py:333-361 | A renewal that reads another non-empty holder loses: no write, the flag falls, counted and notified once if it was up; with an empty or its own holder it keeps its flag and sends its write, attribute by attribute |
| ElectionSteps.AcquireReadDecides | src/vmss_metrics_exporter/leader_election.py:301-331 | An acquire attempt leaves a foreign record alone while its observation time plus the duration read is ahead of the attempt's start, and otherwise sends its write, attribute by attribute |
| ElectionSteps.MissingReadCreates | src/vmss_metrics_exporter/leader_election.py:301-312 | Without a Lease an acquire attempt sends its creation with count zero |
| ElectionSteps.FailureDecides | src/vmss_metrics_exporter/leader_election.py:274-299 | After a failed attempt an acquirer rests; a renewing candidate keeps its flag and waits before its deadline, and at the deadline or later steps down and notifies; a write not landed stays able to land |
| ElectionSteps.UnauthorizedDecides | src/vmss_metrics_exporter/leader_election.py:343-344 | A 401 clears the flag, notified, and an unstopped candidate starts over with no observation |
| ElectionSteps.SuccessDecides | src/vmss_metrics_exporter/leader_election.py:211-219 | A reported acquisition raises the flag with one started callback; a reported renewal moves the deadline; both observe the record they wrote |
| ElectionSteps.CallbackReturnDecides | src/vmss_metrics_exporter/leader_election.py:274-276 | The renew loop begins when the started callback returns, with a deadline from that moment |
| ElectionSteps.WriteStores | src/vmss_metrics_exporter/leader_election.py:402-437 | A write lands only over the version it was computed from, and stores its six attributes under the next version |
| ElectionSteps.ReleaseSends | src/vmss_metrics_exporter/leader_election.py:438-459 | A release is sent only over a record the candidate holds, with an empty holder and one second |
| ElectionSteps.ReleaseEnds | src/vmss_metrics_exporter/leader_election.py:227-240 | A release clears the flag, notifying only if asked and if it was up |
| ElectionSteps.LandsIff | src/vmss_metrics_exporter/leader_election.py:402-437 | A sent write, or one given up on, can land exactly while the stored version is the one it names |
| ElectionSteps.AnyRecordBegins | src/vmss_metrics_exporter/leader_election.py:301-312 | A run may begin with no Lease or with any record earlier processes left |
| ElectionSteps.BeginsIff | src/vmss_metrics_exporter/leader_election.py:211-240 | Attempts begin exactly when their wait is over and no stop is set, a release exactly when a leader stops, and run() ends at a wait exactly once stopped |
| ElectionSteps.BeginDecides | src/vmss_metrics_exporter/leader_election.py:301-303 | An attempt takes both its clock reading and its timestamp when it begins |
| ElectionSteps.AnswersIff | src/vmss_metrics_exporter/leader_election.py:304-331 | A read is answered, refused or fails at any moment of a call; a write succeeds only after it landed and may be reported failed before and after |
| ElectionSteps.ReleaseStepsIff | src/vmss_metrics_exporter/leader_election.py:438-459 | When a release may be sent, learn of its write and end |
| ElectionSteps.ReleaseObserves | src/vmss_metrics_exporter/leader_election.py:418-420 | An accepted release is observed, and changes nothing else of its candidate |
| ElectionSteps.StopDecides | src/vmss_metrics_exporter/leader_election.py:211-240 | A stop only sets the flag of stopping; the end of run() leaves the candidate not leading, notified if it was |
| ElectionSteps.TimePassesIff | src/vmss_metrics_exporter/leader_election.py:274-299 | Time is held back by attempts, and by callbacks and waits only of candidates that are not stopping |
| LeaderElection.ValidatedIsWellFormed | src/vmss_metrics_exporter/leader_election.py:54-70 | What the validator accepts meets the protocol's assumptions |
| LeaderElection.ValidateMeaning | src/vmss_metrics_exporter/leader_election.py:54-70 | Which seconds and names are accepted, in integers, and which error each refused configuration gets |
| LeaderElection.ConfiguredExclusionIff | src/vmss_metrics_exporter/leader_election.py:54-70 | For a validated configuration whose attempts may last one request timeout: mutual exclusion if and only if lease >= renew + wait + callback + 3 attempts |
| LeaderElection.DefaultsAreNotCovered | src/vmss_metrics_exporter/leader_election.py:50-52 | The default and the deployed seconds are valid and do not cover the bounds once an attempt lasts one request timeout |
| LeaderElection.LeaseElection.BecomeLeader | src/vmss_metrics_exporter/leader_election.py:247-258 | Sets the flag; the started callback runs exactly when it rises |
| LeaderElection.LeaseElection.StopLeading | src/vmss_metrics_exporter/leader_election.py:260-272 | Clears the flag; the stopped callback runs only when it falls and is asked for |
| Leases.RecordReadings | src/vmss_metrics_exporter/leader_election.py:557-576 | What counts as held by another, as the duration and as the transition count of a record, fallbacks included |
| Leases.SameKeyIff | src/vmss_metrics_exporter/leader_election.py:532-539 | Two records are one observation exactly when all six attributes agree as read |
| LeaderElection.LeaseElection.ObserveLease | src/vmss_metrics_exporter/leader_election.py:532-539 | The time of the observation is kept exactly when the record is the one last observed, else it is the current time |
| LeaderElection.LeaseElection.TryAcquireOnce | src/vmss_metrics_exporter/leader_election.py:301-331 | For each read: nothing sent, a creation, or an acquire write with every attribute spelled out; sent exactly unless another holder's observation plus duration is ahead; when it wins or raises; the observation afterwards |
| LeaderElection.LeaseElection.RenewOnce | src/vmss_metrics_exporter/leader_election.py:333-361 | In terms of the read and the write alone: lost exactly for another non-empty holder, raised for a 401, renewed for an accepted write, transient otherwise; the write sent, attribute by attribute; the observation |
| LeaderElection.TurnMeaning | src/vmss_metrics_exporter/leader_election.py:333-361 | Which reads and writes give each of raised, lost, renewed and transient, all four exactly |
| LeaderElection.NeverConfirmed | src/vmss_metrics_exporter/leader_election.py:274-279 | Without a renewing turn the deadline counts from the start of the loop |
| LeaderElection.ConfirmedBy | src/vmss_metrics_exporter/leader_election.py:274-279 | Otherwise it counts from the end of the last turn that read no other holder and whose write was accepted |
| LeaderElection.LeaseElection.RenewLoop | src/vmss_metrics_exporter/leader_election.py:274-299 | Never goes past a turn that shows another holder, raises, or fails at or after the deadline; a turn that shows another holder ends it with the flag down and one notice if it was up, a lapse likewise; stopping and raising leave the flag |
| LeaderElection.LapsesInTime | src/vmss_metrics_exporter/leader_election.py:274-299 | With punctual attempts and waits every turn the loop reaches ends within deadline, wait and attempt of the last confirmation |
| LeaderElection.LeaseElection.ReleaseLeaseBestEffort | src/vmss_metrics_exporter/leader_election.py:438-468 | Sends only releases of records it holds, stops at the first accepted, failed, foreign or late try |
| LeaderElection.LeaseElection.Release | src/vmss_metrics_exporter/leader_election.py:227-240 | Afterwards stopped and not leading; only a leader writes; at most one callback |
| LeaderElection.LeaderElectionRunner.RunForever | src/vmss_metrics_exporter/leader_election.py:127-152 | The wait after each election: retry period after a clean return, doubling per further failure |
| LeaderElection.WaitsMeaning | src/vmss_metrics_exporter/leader_election.py:127-152 | The wait after a clean return or a first failure is the retry period, after each further failure twice the wait before, at most 60 seconds |
| LeaderElection.WaitsCappedIff | src/vmss_metrics_exporter/leader_election.py:112-118 | The documented 60-second cap on waits after exceptions holds if and only if the retry period is at most 60 seconds |
| GaugeStore.RowsWritten | src/vmss_metrics_exporter/collector.py:1158-1357 | Writing rows one after the other leaves each series as its last writer says |
| GaugeStore.PublishKeepsIndexed | src/vmss_metrics_exporter/collector.py:1075-1383 | Every exposed series stays inside its active labelset, in full and partial updates |
| GaugeStore.FullUpdateForgetsHistory | src/vmss_metrics_exporter/collector.py:1075-1370 | After an error-free update every series of its families, freshness aside, depends on the update alone, and the active labelsets are those reported |
| GaugeStore.FreshnessIsSticky | src/vmss_metrics_exporter/collector.py:1240-1249 | A freshness series takes a reported timestamp, else keeps its value while its labels are reported or stale series are kept |
| GaugeStore.PartialUpdateFrame | src/vmss_metrics_exporter/collector.py:1371-1382 | A partial update changes no series of labels it does not report; active labelsets only grow |
| GaugeStore.OtherFamiliesUntouched | src/vmss_metrics_exporter/collector.py:909-945 | No update touches the gauges of other families |
| CollectorRows.VmssLabelsetsReported | src/vmss_metrics_exporter/collector.py:910-916 | The labelsets computed before the lock are those of the rows then written |
| CollectorRows.LustreBatchGood | src/vmss_metrics_exporter/collector.py:1158-1357 | Each Lustre row writes every gauge of its family once, and may skip only a freshness gauge |
| CollectorRows.VmBatchGood | src/vmss_metrics_exporter/collector.py:1030-1039 | The standalone-VM rows only set, within their families |
| CollectorRuns.FollowerExposesNothing | src/vmss_metrics_exporter/collector.py:727-832 | In every run, whatever collections are in flight, a follower has no labelled series, no active labelset, and zero totals and last-success times; between set_leader calls the beacon agrees with the event |
| CollectorRuns.FollowerDurations | src/vmss_metrics_exporter/collector.py:606-608 | What each duration gauge of a follower shows, in every run: the last failure of its collection since the last demotion, else zero |
| CollectorRuns.FollowerExposesOnlyBeaconIff | src/vmss_metrics_exporter/collector.py:727-735 | A follower exposes only the beacon if and only if, for each collection, its last failure since the last demotion, if any, took no time |
| CollectorRuns.OnlyBeaconIffNothingFailed | src/vmss_metrics_exporter/collector.py:727-735 | When failures take time: if and only if no collection failed since the last demotion |
| CollectorRuns.DurationsEscapeTheGate | src/vmss_metrics_exporter/collector.py:606-608 | A failed collection shows a duration on a follower that never led |
| CollectorRuns.StoreMatchesIndex | src/vmss_metrics_exporter/collector.py:909-945 | Over every run a VMSS, VM or filesystem gauge has a value exactly at the active labels of its family |
| CollectorRuns.LustreUpdateDecides | src/vmss_metrics_exporter/collector.py:1057-1238 | What a permitted error-free Lustre update leaves in a series is decided by the last row that touches it, whatever was there before; which figure that is, gauge by gauge, is stated in GaugeFigures |
| CollectorRuns.LustreHistoryIndependence | src/vmss_metrics_exporter/collector.py:1057-1383 | Any two histories ending with the same permitted error-free update expose the same Lustre series, freshness aside |
| CollectorRuns.LustrePartialFrame | src/vmss_metrics_exporter/collector.py:1371-1382 | A partial Lustre update keeps unreported series and only grows the index |
| CollectorRuns.LustreFreshness | src/vmss_metrics_exporter/collector.py:1240-1249 | Freshness of reported labels in full and partial updates alike |
| GaugeFigures.OstSpaceFigures | src/vmss_metrics_exporter/collector.py:1189-1214 | After a permitted update, full or partial, the available, used and total bytes of an OST and their percentages, as part * 100 / total, are those of the last sample with its five labels, and absent where the sample has none |
| GaugeFigures.OstClientFigures | src/vmss_metrics_exporter/collector.py:1214-1239 | The read, write and client gauges of an OST likewise |
| GaugeFigures.OstOperationFigures | src/vmss_metrics_exporter/collector.py:1251-1260 | Latency and operations per OST and operation likewise |
| GaugeFigures.MdtSpaceFigures | src/vmss_metrics_exporter/collector.py:1268-1292 | The byte gauges of an MDT and their percentages likewise |
| GaugeFigures.MdtFileFigures | src/vmss_metrics_exporter/collector.py:1292-1317 | The file gauges of an MDT and their percentages likewise |
| GaugeFigures.MdtActivityFigures | src/vmss_metrics_exporter/collector.py:1317-1337 | HSM errors and requests, evictions and clients of an MDT likewise |
| GaugeFigures.MdtOperationFigures | src/vmss_metrics_exporter/collector.py:1343-1353 | Latency and operations per MDT and operation likewise |
| GaugeFigures.AggregateFigures | src/vmss_metrics_exporter/collector.py:1167-1188 | The four derived gauges of a filesystem likewise |
| GaugeFigures.FilesystemFigures | src/vmss_metrics_exporter/collector.py:1158-1165 | Both info gauges of a filesystem are 1 and its capacity is that of the last filesystem with its four labels |
| GaugeFigures.OstFreshness | src/vmss_metrics_exporter/collector.py:1240-1249 | The sample timestamp of an OST is the last one reported for its labels, and the value before when none of its samples has one |
| GaugeFigures.OstOperationFreshness | src/vmss_metrics_exporter/collector.py:1262-1265 | The same per OST and operation |
| GaugeFigures.MdtFreshness | src/vmss_metrics_exporter/collector.py:1338-1341 | The same per MDT |
| GaugeFigures.MdtOperationFreshness | src/vmss_metrics_exporter/collector.py:1354-1357 | The same per MDT and operation |
| GaugeFigures.TargetsReported | src/vmss_metrics_exporter/collector.py:1063-1065 | Which OST and MDT label tuples an update reports, field by field |
| GaugeFigures.OperationsReported | src/vmss_metrics_exporter/collector.py:1064-1068 | Which operation label tuples it reports |
| GaugeFigures.FilesystemLabelsReported | src/vmss_metrics_exporter/collector.py:1057-1071 | Which filesystem label tuples it reports |
| GaugeFigures.UnreportedShown | src/vmss_metrics_exporter/collector.py:1075-1156 | A Lustre gauge of labels no sample has is gone after an error-free update and as before after a partial one |
| InventoryFigures.VmssFigures | src/vmss_metrics_exporter/collector.py:932-940 | After a permitted update the count, capacity, five state counts and info of the last scale set with given labels, each in its own gauge |
| InventoryFigures.VmssGone | src/vmss_metrics_exporter/collector.py:920-931 | Count, capacity and info gauges of labels no scale set has are gone |
| InventoryFigures.VmssStateGone | src/vmss_metrics_exporter/collector.py:925-928 | State gauges of labels no scale set has are gone |
| InventoryFigures.VmFigures | src/vmss_metrics_exporter/collector.py:1033-1039 | Up to the cap a VM has its info gauge at its eight labels, and its identity each of the six power states, 1 where its last VM is |
| InventoryFigures.VmInfoGone | src/vmss_metrics_exporter/collector.py:1020-1023 | The info gauge of labels no VM has is gone |
| InventoryFigures.VmPowerGone | src/vmss_metrics_exporter/collector.py:1024-1028 | The power states of an identity no VM has are gone |
| InventoryFigures.CountMeaning | src/vmss_metrics_exporter/collector.py:990-993 | The count of a size is the number of positions at which a VM has it |
| InventoryFigures.TotalsWritten | src/vmss_metrics_exporter/collector.py:675-687 | Which total, timestamp and duration each summary and each failure writes, the other seven as before |
| InventoryFigures.FollowerIgnores | src/vmss_metrics_exporter/collector.py:896-945 | An exporter that takes part in the election and does not lead ignores every update and summary |
| CollectorRuns.SizeCountsConserve | src/vmss_metrics_exporter/collector.py:990-993 | The size counts sum to the number of VMs |
| CollectorRuns.SizeGaugesCount | src/vmss_metrics_exporter/collector.py:1030-1031 | Each size gauge is the number of VMs of that size, at any inventory size |
| CollectorRuns.PowerStateOneHot | src/vmss_metrics_exporter/collector.py:1034-1039 | At or under the cap each reported identity has six state series, 1 in its last VM's state and 0 elsewhere |
| CollectorRuns.CapSuppressesPerVm | src/vmss_metrics_exporter/collector.py:995-1005 | Over the cap no per-VM series remains |
| Collector.MetricsExporter.Create | src/vmss_metrics_exporter/collector.py:126-128 | Construction fails exactly for a non-positive inventory cap; otherwise the exporter starts empty |
| Collector.EveryGaugeIsCleared | src/vmss_metrics_exporter/collector.py:760-807 | The list of gauges to clear leaves no labelled gauge out |
| Collector.MetricsExporter.SetLeader | src/vmss_metrics_exporter/collector.py:727-754 | Without election nothing changes; a demotion leaves no series, no index and zero scalars; a promotion changes only the event and beacon |
| Collector.MetricsExporter.ClearResourceGauges | src/vmss_metrics_exporter/collector.py:756-832 | Is the second half of a demotion: empties every gauge and active labelset, zeroes the scalars |
| Collector.MetricsExporter.RemoveStale | src/vmss_metrics_exporter/collector.py:1076-1156 | The remove loops drop exactly the stale series, whatever order the stale set is walked in |
| Collector.MetricsExporter.UpdateMetrics | src/vmss_metrics_exporter/collector.py:909-945 | The in-place update is one step of a run; it answers whether it was permitted |
| Collector.MetricsExporter.UpdateStandaloneVmMetrics | src/vmss_metrics_exporter/collector.py:985-1044 | The same for standalone VMs |
| Collector.MetricsExporter.CountSizes | src/vmss_metrics_exporter/collector.py:990-993 | The size dictionary: each size once in order of appearance, with its number of VMs |
| Collector.MetricsExporter.UpdateLustreMetrics | src/vmss_metrics_exporter/collector.py:1046-1383 | The same for Lustre, with and without removal of stale series; the figures are spelled out gauge by gauge in GaugeFigures |
| Collector.MetricsExporter.CollectLustreOnce | src/vmss_metrics_exporter/collector.py:637-693 | A failed collection touches only its duration and error counter; a result without aggregates is completed by computed ones; one with errors keeps stale series; one not permitted changes nothing |
| Collector.CompletionUnique | src/vmss_metrics_exporter/collector.py:658-666 | At most one completion of a result exists |
| LustreNormalisation.NormalizeLustreMetricsResponse | src/vmss_metrics_exporter/azure_managed_lustre.py:472-623 | The one-pass dictionary builder yields one result per key in order of first appearance, each field the last usable series of its metric, each timestamp the maximum; which samples, keys and fields these are is spelled out in LustreReadings |
| LustreNormalisation.FillTables | src/vmss_metrics_exporter/azure_managed_lustre.py:481-542 | The nested loops fill the four tables as the usable samples in response order do |
| LustreNormalisation.TableValues | src/vmss_metrics_exporter/azure_managed_lustre.py:511-542 | A table entry is the last usable sample of its key and metric |
| LustreNormalisation.TableStamps | src/vmss_metrics_exporter/azure_managed_lustre.py:515-519 | The running maximum is the maximum over the key's samples, none below zero |
| LustreNormalisation.KeysListedOnce | src/vmss_metrics_exporter/azure_managed_lustre.py:544-622 | Every key with a usable sample is listed once, and no other |
| LustreNormalisation.LastValueIsLast | src/vmss_metrics_exporter/azure_managed_lustre.py:511-542 | The value comes from a matching sample with no matching sample after it |
| LustreNormalisation.LatestIsNewest | src/vmss_metrics_exporter/azure_managed_lustre.py:895-910 | A series reports its newest point with a value, and the first field that has one there |
| LustreNormalisation.MaxStampIsMaximum | src/vmss_metrics_exporter/azure_managed_lustre.py:515-519 | With non-negative timestamps the recorded one is attained and an upper bound |
| LustreNormalisation.ReorderingChangesNothing | src/vmss_metrics_exporter/azure_managed_lustre.py:307-354 | Reordering entries of different metric names, as merging batches may, changes no value, timestamp or key |
| LustreNormalisation.ChunkMetricNames | src/vmss_metrics_exporter/azure_managed_lustre.py:767-780 | Fails exactly for a non-positive size; otherwise the chunks hold all names in order, none empty or too long |
| LustreNormalisation.ChunksPartition | src/vmss_metrics_exporter/azure_managed_lustre.py:767-780 | Every chunk but the last is full |
| LustreNormalisation.BatchesCoverMetrics | src/vmss_metrics_exporter/azure_managed_lustre.py:308-342 | The requests ask for every collected metric exactly once, at most twenty names each |
| LustreReadings.DimensionMeaning | src/vmss_metrics_exporter/azure_managed_lustre.py:852-871 | A dimension is the first metadata entry whose name is equal but for upper-case letters and whose value is not white space |
| LustreReadings.OstKeys | src/vmss_metrics_exporter/azure_managed_lustre.py:492-513 | An OST series is keyed by its ostnum, by "all" without metadata; an operation series also by its operation, "all" for either if missing; a simple series with metadata and no ostnum has no key |
| LustreReadings.MdtKeys | src/vmss_metrics_exporter/azure_managed_lustre.py:500-525 | An MDT series is keyed by its mdtnum in the same way |
| LustreReadings.SampleMeaning | src/vmss_metrics_exporter/azure_managed_lustre.py:484-491 | A series contributes its newest point with a reading, the average or for evictions the total, else the maximum, else the average, with that point's time, to the table of its metric |
| LustreReadings.EntryMeaning | src/vmss_metrics_exporter/azure_managed_lustre.py:481-484 | A metric that is not collected contributes nothing |
| LustreReadings.SeriesMeaning | src/vmss_metrics_exporter/azure_managed_lustre.py:484-491 | Each series of a collected metric contributes after those before it |
| LustreReadings.KeysInOrder | src/vmss_metrics_exporter/azure_managed_lustre.py:544-545 | Results are in order of the first sample of their key |
| LustreReadings.OstFields | src/vmss_metrics_exporter/azure_managed_lustre.py:544-567 | Each named field of an OST result is the last value of the metric of that name, the timestamp the largest, the labels those of the filesystem |
| LustreReadings.OstOperationFields | src/vmss_metrics_exporter/azure_managed_lustre.py:569-583 | The same for OST operations |
| LustreReadings.MdtFields | src/vmss_metrics_exporter/azure_managed_lustre.py:585-606 | The same for MDTs, evictions included |
| LustreReadings.MdtOperationFields | src/vmss_metrics_exporter/azure_managed_lustre.py:608-622 | The same for MDT operations |
| LustreAggregation.BuildAggregateMetrics | src/vmss_metrics_exporter/models.py:384-459 | Output keys strictly increase and are exactly those with a sample; each output is the aggregate of its group, whose four figures LustreAggregateRows spells out |
| LustreAggregation.AggregatedUnique | src/vmss_metrics_exporter/models.py:391-459 | That specification determines the result |
| LustreAggregateRows.KeysMeaning | src/vmss_metrics_exporter/models.py:384-412 | A filesystem has a row exactly when some OST, OST operation, MDT or MDT operation sample carries its four labels |
| LustreAggregateRows.KeyLessIff | src/vmss_metrics_exporter/models.py:391 | Rows are in the order of their first differing label, that of its first differing character |
| LustreAggregateRows.RatioMeaning | src/vmss_metrics_exporter/models.py:420-427 | The ratio of a row times the larger of its read plus write operations and 1 is its metadata operations, both summed over the samples of its labels |
| LustreAggregateRows.RatioMonotone | src/vmss_metrics_exporter/models.py:420-427 | More metadata operations never lower the ratio, more data operations never raise it |
| LustreAggregateRows.ClientsMeaning | src/vmss_metrics_exporter/models.py:414-416 | The client count of a row is attained by a sample of its labels and bounds them all, absent exactly when none has one |
| LustreAggregateRows.EvictionsMeaning | src/vmss_metrics_exporter/models.py:417-419 | The evictions of a row are the sum over the samples of its labels, absent exactly when none has any |
| LustreAggregateRows.AgeMeaning | src/vmss_metrics_exporter/models.py:428-446 | The age of a row is that of the oldest timestamp over all four kinds of samples of its labels, never below zero, absent exactly when there is none |
| LustreAggregation.EvictionsConserved | src/vmss_metrics_exporter/models.py:417-419 | Evictions over outputs equal evictions over inputs |
| LustreAggregation.GroupingConserves | src/vmss_metrics_exporter/models.py:392-403 | Group sums add up to the sum of all figures |
| LustreAggregation.ClientMaximumPreserved | src/vmss_metrics_exporter/models.py:414-416 | The largest client count over outputs is the largest over all samples |
| LustreAggregation.OldestAgePreserved | src/vmss_metrics_exporter/models.py:428-446 | The largest age over outputs is the age of the oldest timestamp of all samples |
| LustreAggregation.OrderDoesNotMatter | src/vmss_metrics_exporter/models.py:384-459 | Permuted inputs, and other filesystems without samples, give the same result |
| LustreAggregation.MaxOptionalIsMax | src/vmss_metrics_exporter/models.py:476-480 | The maximum of the present values, none if all are absent |
| WorkloadSelection.ShardFiles | scripts/av_lustre_workload.py:216-220 | Succeeds exactly for a pod index below the pod count, which error otherwise; the entries returned are those at pod + j * pods, and how many |
| WorkloadSelection.ShardSize | scripts/av_lustre_workload.py:205-220 | Shard sizes differ by at most one, the first pods getting the remainder |
| WorkloadSelection.ShardStride | scripts/av_lustre_workload.py:213-220 | The j-th file of a pod is the (pod + j * pods)-th entry |
| WorkloadSelection.ShardsPartition | scripts/av_lustre_workload.py:205-220 | The shards of all pods hold each entry exactly once |
| WorkloadSelection.SelectFiles | scripts/av_lustre_workload.py:235-253 | Both validation errors exactly, otherwise the greedy selection of the shuffled shard, break and continue included |
| WorkloadSelection.CapsRespected | scripts/av_lustre_workload.py:246-253 | Count and byte totals respect the caps, and nothing is selected twice |
| WorkloadSelection.NothingLeftFits | scripts/av_lustre_workload.py:249-250 | A file left out although the count cap is not reached: the selected bytes plus its size exceed the byte cap |
| WorkloadSelection.ScanTakesWhatFits | scripts/av_lustre_workload.py:246-252 | The file at a position is appended exactly when the count cap is not reached and the bytes selected before it plus its size are within the byte cap |
| WorkloadSelection.BytesAdd | scripts/av_lustre_workload.py:251 | The bytes selected are the sum of the sizes |
| WorkloadSelection.CountCapTakesPrefix | scripts/av_lustre_workload.py:247-248 | The count cap keeps the first files of the selection without it |
| WorkloadSelection.EpochNeverRepeats | scripts/av_lustre_workload.py:985-992 | Under any caps and shuffles, no file is processed by two pods or twice by one |
| WorkloadSelection.EpochCoversDataset | scripts/av_lustre_workload.py:985-992 | Without caps all pods together select each entry exactly once per epoch, for any shuffles |
| WorkloadPercentile.PercentileMeaning | scripts/av_lustre_workload.py:256-271 | For every input: zero for no samples, an error exactly for an out-of-range percent, else the value at the fractional rank of the sorted samples, between the smallest and the largest |
| WorkloadPercentile.PercentileInterpolates | scripts/av_lustre_workload.py:262-271 | With the samples in order and rank percent/100 * (n-1) from position k on, the percentile is the k-th sample plus the fraction rank - k of the way to the next |
| WorkloadPercentile.PercentileMonotone | scripts/av_lustre_workload.py:262-271 | Monotone in the percent and in pointwise larger samples |
| WorkloadPercentile.PercentileIgnoresOrder | scripts/av_lustre_workload.py:262 | The order of the samples does not matter |
| WorkloadPercentile.PercentileIsAtRank | scripts/av_lustre_workload.py:263-264 | The special case for 100 agrees with the interpolation |
| WorkloadPercentile.PercentileCounts | scripts/av_lustre_workload.py:265-271 | A percentile within a limit needs more than floor(rank) samples within it; more than ceil(rank) are enough |
| WorkloadPercentile.SummaryOrdered | scripts/av_lustre_workload.py:720-731 | min <= p50 <= p95 <= p99 <= max, mean between min and max, ends are the 0th and 100th percentiles |
| WorkloadPercentile.SummaryMeaning | scripts/av_lustre_workload.py:720-731 | No summary without samples; else the count, the least and greatest sample, the 50th, 95th and 99th percentile and the mean |
| WorkloadPercentile.MeanMeaning | scripts/av_lustre_workload.py:730 | The mean times the count is the sum |
| WorkloadPercentile.JudgeBucket | scripts/av_lustre_workload.py:747-762 | Count, threshold and 95th percentile of one bucket; a verdict exactly with samples and a threshold, passing exactly at or below it |
| WorkloadPercentile.EvaluateSlo | scripts/av_lustre_workload.py:734-768 | Fails exactly the buckets with samples, a threshold and a 95th percentile above it, smallest size first; passes exactly when there is none; describes every bucket |
| WorkloadPercentile.SloMonotone | scripts/av_lustre_workload.py:755-761 | Raising or dropping thresholds, or faster samples, never turns a pass into a failure |
| WorkloadChunks.Stamp | scripts/av_lustre_workload.py:1230-1231 | The slice assignment keeps everything from byte 8 on and lengthens a shorter buffer to eight |
| FillSteps.StampMeaning | scripts/av_lustre_workload.py:1230-1231 | The first eight bytes of a stamped buffer spell the counter, least significant first, and the others are kept |
| WorkloadChunks.ChunksRepeatIff | scripts/av_lustre_workload.py:1154-1160 | Exactly when two chunks repeat verbatim: never with a whole stamp, else when equally short with counters equal modulo a power of 256 |
| WorkloadChunks.ShortTailsRepeat | scripts/av_lustre_workload.py:1225-1235 | Two one-byte tails 256 chunks apart are the same |
| WorkloadRepeats.NoRunRepeats | scripts/av_lustre_workload.py:1154-1160 | No run repeats a chunk, whatever fails, when a file leaves nothing or at least eight bytes over |
| WorkloadRepeats.RunRepeatsIff | scripts/av_lustre_workload.py:1154-1160 | An undisturbed run of n files repeats a chunk if and only if a file leaves one to seven bytes over and some number of files below n brings the counter round in that many bytes |
| WorkloadRepeats.NineByteFilesRepeat | scripts/av_lustre_workload.py:1154-1160 | 129 files of nine bytes in chunks of eight repeat a chunk |
| WorkloadRepeats.RunAccountsExactlyIff | scripts/av_lustre_workload.py:1231-1237 | A run accounts for exactly the bytes it writes if and only if chunks have at least eight bytes or it writes nothing |
| WorkloadRepeats.FourByteChunksUnderCounted | scripts/av_lustre_workload.py:1231-1237 | One file of four bytes in a chunk of four accounts for four bytes and writes eight |
| WorkloadChunks.AccountingExactIff | scripts/av_lustre_workload.py:1231-1237 | Accounted bytes equal written bytes if and only if the chunk size is at least eight or no full chunk was written |
| WorkloadFill.Settle | scripts/av_lustre_workload.py:1142-1150 | Each figure by cases of its argument: file size and fan-out at least one, the chunk size asked for or its fallback between one and the file size, target not below zero, cap as given |
| WorkloadFill.WriteFile | scripts/av_lustre_workload.py:1219-1241 | The loop computes the specified file block, chunk by chunk |
| WorkloadFill.FileBlockMeets | scripts/av_lustre_workload.py:1219-1241 | The file holds exactly the chunks logged for it, all full but one that completes it with the left-over; complete unless a signal, the target or an error ends it, each at the chunk where it strikes |
| FillSteps.FileSteps | scripts/av_lustre_workload.py:1219-1241 | One attempt at a file ends at its last byte or at the chunk that meets the target, unless a signal, the end of the counter or a write error comes at an earlier chunk, in this order; each of these at the chunk where it strikes |
| WorkloadFill.Pass | scripts/av_lustre_workload.py:1193-1271 | One pass of the loop computes the specified pass, its tests in order |
| FillSteps.PassTests | scripts/av_lustre_workload.py:1193-1217 | The tests before a file in order, with the state each leaves and the reason each gives: signal, file cap, byte target, path check, directory |
| FillSteps.PassOutcome | scripts/av_lustre_workload.py:1242-1271 | What each end of a file does to the counts and whether the run goes on: complete, full, another error with and without failing on errors, end of the counter |
| FillSteps.RunIsPasses | scripts/av_lustre_workload.py:1190-1193 | A run is its passes in order from nothing written, up to the first that gives a reason to end |
| WorkloadFill.PassKeeps | scripts/av_lustre_workload.py:1193-1271 | A pass keeps the invariant of the run, adding exactly the partial file it opens again to the discarded bytes |
| WorkloadFill.Fill | scripts/av_lustre_workload.py:1190-1271 | The loop computes the specified run, with the invariant and the attempt that explains its end |
| WorkloadFill.RunMeets | scripts/av_lustre_workload.py:1190-1271 | Every run: bytes are the sum of the writes and below target plus chunk, files at most the cap, disk plus the defined discarded bytes is the total, and which attempt ended the run |
| WorkloadFill.SteadyRunEnds | scripts/av_lustre_workload.py:1193-1202 | A run without signals and errors that outlasts its cap or target has ended there, or overflowed its counter |
| WorkloadFill.DiskExactIff | scripts/av_lustre_workload.py:1220-1255 | For chunks of at least eight bytes, accounted bytes equal bytes on disk if and only if no pass opens a file of which an earlier failed pass left a part; otherwise they are more |
| WorkloadFill.PartialAfterPass | scripts/av_lustre_workload.py:1250-1255 | What a pass leaves for the next: nothing, or exactly the bytes a failed attempt wrote |
| WorkloadFill.RetryCountsTwice | scripts/av_lustre_workload.py:1250-1255 | A run in which a failed and repeated file counts 24 bytes and leaves 16 |
| WorkloadFill.WritesDiffer | scripts/av_lustre_workload.py:1154-1160 | In any run no two writes of at least eight bytes are the same, whatever fails and is retried |
| WorkloadFill.DiskGains | scripts/av_lustre_workload.py:1236-1239 | What an opened file gains on disk, net of the partial file it replaces, is what is accounted for it |
| WorkloadPaths.EnsureWithin | scripts/av_lustre_workload.py:274-289 | Accepts exactly what resolves at or under the base, and returns it resolved; which error each refusal gets |
| WorkloadPaths.AssertDisjointRoots | scripts/av_lustre_workload.py:292-322 | Accepts exactly two resolved roots of which neither lies at or under the other, and which error each refusal gets |
| WorkloadPaths.PodDirectory | scripts/av_lustre_workload.py:1126-1140 | Accepts exactly when the roots are disjoint, the run resolves under the result root and the pod under the run; the directory is that resolved pod path |
| WorkloadPaths.CheckOutput | scripts/av_lustre_workload.py:622-631 | Accepts exactly what resolves at or under the pod directory and, with a dataset root, off the dataset, roots disjoint or not |
| WorkloadPaths.DisjointIffNothingShared | scripts/av_lustre_workload.py:292-322 | The roots are accepted if and only if no location lies at or under both |
| WorkloadPaths.WritesStayOffDataset | scripts/av_lustre_workload.py:1126-1139 | Every file that passes the root, run, pod and per-file checks resolves outside the dataset, for any run id and pod name |
| WorkloadPaths.FilePathsDistinct | scripts/av_lustre_workload.py:1204-1206 | Files with different numbers have different paths |
| WorkloadPaths.FilePathMeaning | scripts/av_lustre_workload.py:1204-1206 | A file lies two segments below the pod directory, its number modulo the fan-out in at least four digits and its number in at least eight |
| WorkloadPaths.DirectoriesBalanced | scripts/av_lustre_workload.py:1204 | Directory loads differ by at most one at every point |
| WorkloadPaths.DirectoryHolds | scripts/av_lustre_workload.py:1204-1206 | A directory holds exactly the files whose paths lead through it |

## Left out

- Kubernetes and Azure SDK calls, credential reload after a 401, token hooks and logging: an API call is reduced to its outcome, including error-but-committed.
- ElectionProtocol: the per-process API lock, so a release may interleave with an attempt of its own process in more ways than the code allows; safety is proved for all of them.
- ElectionProtocol: Lease deletion, unequal clock rates and candidates with different configurations.
- ElectionExactness.MutualExclusionIffCovered: necessity assumes that some number of failing attempts can end just before the renew deadline, which attempts of one request timeout, or of one retry period, always can; sufficiency does not assume it.
- ElectionProtocol: how long a release may take is unbounded; a stopping leader is exempt from mutual exclusion, as the flag may stay up while it releases.
- LeaderElection: the supervisor's creation of elections, its exception-suppressing callbacks and its own `release` forwarding.
- Collector: the error counters of the VMSS and VM collections, and `stop()`, after which the leader event no longer means leadership.
- CollectorRuns: poller threads and their shared wake event, which can lose a wake-up between two pollers.
- CollectorRuns.FollowerExposesNothing: not stated while a demotion has cleared the event and not yet the gauges.
- Prometheus text exposition, registries and float rounding: a gauge is a map entry with a real value.
- LustreNormalisation: blank and case tests of dimension names are ASCII; names that are not collected are one value; SDK object shapes are records.
- LustreNormalisation: retries, paging, jitter and the sorting of the collected samples across filesystems.
- WorkloadSelection: the random shuffle is any permutation; directory walking, hot set and size classes are not modelled.
- WorkloadPercentile: the per-bucket summaries of a run hold a subset of the figures of Summarize.
- WorkloadFill: timing, progress output and the recorded error list; attempted and succeeded counts always equal the files written, failed attempts being counted in neither.
- WorkloadFill: bytes of a failed write that reached the disk all the same, and the fsync behaviour of the filesystem.
- WorkloadPaths.WritesStayOffDataset: resolution is one function during a run, and a resolved pod directory resolves to itself.
- WorkloadPaths: path text and joining; run ids are arbitrary, so the stricter single-segment test is not needed.
- Parsing of sizes, durations and SLO pairs, `config.py`, `credentials.py`, `azure_resource_graph.py`, `main.py`, manifests, dashboards and shell drivers.
