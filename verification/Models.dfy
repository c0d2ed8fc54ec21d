/** The frozen records the collectors hand to the exporter, and the label tuples they are keyed by. */
module Models {
  import opened Wrappers

  type Labels = seq<string>

  const VMSS_INSTANCE_STATES: seq<string> := ["running", "stopped", "deallocated", "failed", "unknown"]

  const STANDALONE_VM_POWER_STATES: seq<string> :=
    ["running", "stopped", "deallocated", "starting", "stopping", "unknown"]

  datatype VmssCount = VmssCount(
    subscriptionId: string, resourceGroup: string, vmssName: string, location: string,
    orchestrationMode: string, actual: real, capacity: real,
    running: real, stopped: real, deallocated: real, failed: real, unknown: real,
    vmSize: string, skuTier: string)
  {
    function LabelValues(): Labels {
      [subscriptionId, resourceGroup, vmssName, location, orchestrationMode]
    }

    function StateCounts(): seq<(string, real)> {
      [("running", running), ("stopped", stopped), ("deallocated", deallocated),
       ("failed", failed), ("unknown", unknown)]
    }

    function StateLabelValues(state: string): Labels { LabelValues() + [state] }

    function InfoLabelValues(): Labels {
      [subscriptionId, resourceGroup, vmssName, location, orchestrationMode, vmSize, skuTier]
    }
  }

  datatype StandaloneVm = StandaloneVm(
    subscriptionId: string, resourceGroup: string, vmName: string, vmId: string, location: string,
    zone: string, vmSize: string, osType: string, powerState: string)
  {
    function InfoLabelValues(): Labels {
      [subscriptionId, resourceGroup, vmName, vmId, location, zone, vmSize, osType]
    }

    function IdentityLabelValues(): Labels { [subscriptionId, resourceGroup, vmName] }
  }

  datatype Filesystem = Filesystem(
    subscriptionId: string, resourceGroup: string, filesystemName: string, resourceId: string,
    location: string, skuTier: string, storageCapacityTib: real)
  {
    function InfoLabelValues(): Labels {
      [subscriptionId, resourceGroup, filesystemName, location, skuTier]
    }

    function CapacityLabelValues(): Labels { [subscriptionId, resourceGroup, filesystemName, location] }
  }

  datatype OstMetric = OstMetric(
    subscriptionId: string, resourceGroup: string, filesystemName: string, location: string,
    ostnum: string,
    bytesAvailable: Option<real>, bytesUsed: Option<real>, bytesTotal: Option<real>,
    clientReadOps: Option<real>, clientReadThroughput: Option<real>,
    clientWriteOps: Option<real>, clientWriteThroughput: Option<real>,
    connectedClients: Option<real>, sampleTimestamp: Option<real>)
  {
    function LabelValues(): Labels { [subscriptionId, resourceGroup, filesystemName, location, ostnum] }

    function FilesystemKey(): Labels { [subscriptionId, resourceGroup, filesystemName, location] }
  }

  datatype OstOperationMetric = OstOperationMetric(
    subscriptionId: string, resourceGroup: string, filesystemName: string, location: string,
    ostnum: string, operation: string,
    clientLatency: Option<real>, clientOps: Option<real>, sampleTimestamp: Option<real>)
  {
    function LabelValues(): Labels {
      [subscriptionId, resourceGroup, filesystemName, location, ostnum, operation]
    }

    function FilesystemKey(): Labels { [subscriptionId, resourceGroup, filesystemName, location] }
  }

  datatype MdtMetric = MdtMetric(
    subscriptionId: string, resourceGroup: string, filesystemName: string, location: string,
    mdtnum: string,
    bytesAvailable: Option<real>, bytesUsed: Option<real>, bytesTotal: Option<real>,
    filesFree: Option<real>, filesUsed: Option<real>, filesTotal: Option<real>,
    hsmActionErrors: Option<real>, hsmCurrentRequests: Option<real>,
    clientEvictions: Option<real>, connectedClients: Option<real>, sampleTimestamp: Option<real>)
  {
    function LabelValues(): Labels { [subscriptionId, resourceGroup, filesystemName, location, mdtnum] }

    function FilesystemKey(): Labels { [subscriptionId, resourceGroup, filesystemName, location] }
  }

  datatype MdtOperationMetric = MdtOperationMetric(
    subscriptionId: string, resourceGroup: string, filesystemName: string, location: string,
    mdtnum: string, operation: string,
    clientLatency: Option<real>, clientOps: Option<real>, sampleTimestamp: Option<real>)
  {
    function LabelValues(): Labels {
      [subscriptionId, resourceGroup, filesystemName, location, mdtnum, operation]
    }

    function FilesystemKey(): Labels { [subscriptionId, resourceGroup, filesystemName, location] }
  }

  datatype AggregateMetric = AggregateMetric(
    key: Labels,
    connectedClients: Option<real>, clientEvictions: Option<real>,
    metadataAmplificationRatio: Option<real>, sampleMaxAge: Option<real>)

  /** A percentage is known when both figures are and the total is positive. */
  function Percent(part: Option<real>, total: Option<real>): Option<real> {
    if part.None? || total.None? || total.value <= 0.0 then None
    else Some(part.value / total.value * 100.0)
  }
}
