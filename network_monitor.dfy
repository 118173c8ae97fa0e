/**
 * `NetworkMonitor`: the scanner's configuration, the table of devices seen
 * on the last scan and the per-host traffic history, with the operations
 * that update them. The ARP sweep, nmap and the interface list are inputs
 * (see the Scanning module); the clock is a parameter.
 */
module Monitor {
  import opened Wrappers
  import opened Devices
  import opened Scanning
  import opened Traffic
  import opened Changes

  class NetworkMonitor {
    /** Seconds between scans in the main loop. */
    const scanInterval: int
    /** The `--host-timeout` passed to nmap, in seconds. */
    const portScanTimeout: int
    /** Probe the common ports of each host; off, devices carry no ports. */
    const scanCommonPorts: bool
    const anomalyThresholds: Thresholds

    /** `known_devices`: the table built from the last scan. */
    var knownDevices: DeviceTable
    /** `traffic_history`: the samples of each host that sent traffic. */
    var trafficHistory: map<string, seq<Sample>>

    /** The device table is a well-formed dict, and every stored history is non-empty and within 24 hours. */
    ghost predicate Valid()
      reads this
    {
      && WellFormed(knownDevices)
      && forall ip :: ip in trafficHistory ==> Windowed(trafficHistory[ip])
    }

    constructor (scanInterval: int := 300, portScanTimeout: int := 2, scanCommonPorts: bool := true)
      ensures Valid()
      ensures this.scanInterval == scanInterval && this.portScanTimeout == portScanTimeout
      ensures this.scanCommonPorts == scanCommonPorts
      ensures anomalyThresholds == DefaultThresholds
      ensures knownDevices == EmptyTable && trafficHistory == map[]
    {
      this.scanInterval := scanInterval;
      this.portScanTimeout := portScanTimeout;
      this.scanCommonPorts := scanCommonPorts;
      anomalyThresholds := DefaultThresholds;
      knownDevices := EmptyTable;
      trafficHistory := map[];
    }

    /**
     * `scan_network`: find the interface, sweep its /24, and build one
     * device per reply with the ports nmap reported when port scanning is on.
     */
    method ScanNetwork(ifaces: seq<Interface>, sweep: string -> Option<seq<HostReply>>) returns (devices: seq<Device>)
      ensures devices == ScannedDevices(ifaces, sweep, scanCommonPorts)
    {
      var found := GetNetworkInterface(ifaces);
      if found.None? {
        return [];
      }
      var network := NetworkOf(found.value.1);
      var answered := sweep(network);
      if answered.None? {
        return [];
      }
      var replies := answered.value;
      devices := [];
      var i := 0;
      while i < |replies|
        invariant 0 <= i <= |replies|
        invariant |devices| == i
        invariant forall k :: 0 <= k < i ==> devices[k] == DeviceOf(replies[k], scanCommonPorts)
      {
        var reply := replies[i];
        var ports: seq<Port> := [];
        if scanCommonPorts {
          ports := ParseNmapOutput(reply.nmapReturnCode, reply.nmapOutput);
        }
        devices := devices + [Device(reply.ip, reply.mac, reply.seenAt, ports)];
        i := i + 1;
      }
    }

    /**
     * `get_network_changes`: scan, compare the result with the known table,
     * then make the scan the known table. The three lists are the new
     * devices, the disconnected ones and those whose port numbers changed.
     */
    method GetNetworkChanges(ifaces: seq<Interface>, sweep: string -> Option<seq<HostReply>>)
      returns (newDevices: seq<Device>, disconnectedDevices: seq<Device>, changedDevices: seq<Device>)
      requires Valid()
      modifies this`knownDevices
      ensures Valid()
      ensures knownDevices == IndexByIp(ScannedDevices(ifaces, sweep, scanCommonPorts))
      ensures ChangeSet(newDevices, disconnectedDevices, changedDevices) == Diff(old(knownDevices), knownDevices)
    {
      var scan := ScanNetwork(ifaces, sweep);
      var current := IndexByIp(scan);
      WellFormedIndexed(current);
      WellFormedIndexed(knownDevices);
      newDevices, changedDevices := ArrivedAndChanged(current, knownDevices);
      disconnectedDevices := Departed(knownDevices, current);
      knownDevices := current;
    }

    /**
     * `analyze_traffic`: append the reading taken at `now` to the host's
     * history, drop what is 24 hours old or older, and run the anomaly
     * tests on what remains.
     */
    method AnalyzeTraffic(ip: string, packetCount: int, packetSize: int, now: int) returns (report: Report)
      requires Valid()
      modifies this`trafficHistory
      ensures Valid()
      ensures trafficHistory ==
        old(trafficHistory)[ip := Record(HistoryOf(old(trafficHistory), ip), Sample(now, packetCount, packetSize))]
      ensures report == DetectAnomaliesFor(ip)
      ensures report.stats.Some?
    {
      var sample := Sample(now, packetCount, packetSize);
      var history := HistoryOf(trafficHistory, ip) + [sample];
      var cutoff := now - Day;
      history := Prune(history, cutoff);
      RecordWindowed(HistoryOf(trafficHistory, ip), sample);
      assert history == Record(HistoryOf(trafficHistory, ip), sample) && history != [];
      trafficHistory := trafficHistory[ip := history];
      assert HistoryOf(trafficHistory, ip) == history;
      report := DetectAnomalies(history, anomalyThresholds);
    }

    /** `detect_anomalies`: the anomaly tests on the host's current history. */
    function DetectAnomaliesFor(ip: string): (r: Report)
      reads this
      ensures r.stats.None? <==> HistoryOf(trafficHistory, ip) == []
    {
      DetectAnomalies(HistoryOf(trafficHistory, ip), anomalyThresholds)
    }
  }
}
