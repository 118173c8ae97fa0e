/**
 * `NetworkMonitorBot`: the monitor, the dashboard and the notifier wired
 * together, and one iteration of `monitor_network`: take the changes, log
 * one dashboard event per device, then notify. The endless loop, the sleep
 * between iterations and the web thread are not modelled.
 */
module Bot {
  import opened Wrappers
  import opened Text
  import opened Risk
  import opened Devices
  import opened Scanning
  import opened Changes
  import opened Monitor
  import opened Web
  import opened Discord

  /** `os.getenv('PORT_SCAN_COMMON', 'True').lower() == 'true'`. */
  predicate EnvFlag(value: Option<string>) {
    Lower(match value case None => "True" case Some(s) => s) == "true"
  }

  /** Unset means on; the spelling of "true" does not matter; anything else is off. */
  lemma EnvFlagExamples()
    ensures EnvFlag(None)
    ensures EnvFlag(Some("TRUE")) && EnvFlag(Some("true"))
    ensures !EnvFlag(Some("1")) && !EnvFlag(Some("yes"))
  {
    assert Lower("True") == "true";
    assert Lower("TRUE") == "true";
    assert Lower("true") == "true";
  }

  /** One event of the same kind and risk per device, in device order. */
  function EventsFor(kind: string, ds: seq<Device>, risk: Level, stamp: string): (es: seq<Event>)
    ensures |es| == |ds|
    ensures forall i :: 0 <= i < |ds| ==> es[i] == Event(kind, ds[i], risk, stamp)
  {
    seq(|ds|, i requires 0 <= i < |ds| => Event(kind, ds[i], risk, stamp))
  }

  /** One "Port Changes Detected" event per changed device, carrying the device's highest port tier. */
  function ChangedEvents(ds: seq<Device>, stamp: string): (es: seq<Event>)
    ensures |es| == |ds|
    ensures forall i :: 0 <= i < |ds| ==> es[i] == Event("Port Changes Detected", ds[i], DeviceRisk(ds[i].ports), stamp)
  {
    seq(|ds|, i requires 0 <= i < |ds| => Event("Port Changes Detected", ds[i], DeviceRisk(ds[i].ports), stamp))
  }

  /** The dashboard events of one iteration, in the order they are added. */
  function IterationEvents(c: ChangeSet, stamp: string): seq<Event> {
    EventsFor("Novo Dispositivo Conectado", c.arrived, Low, stamp)
    + EventsFor("Dispositivo desconectado", c.departed, Low, stamp)
    + ChangedEvents(c.portChanged, stamp)
  }

  /** The alerts of one iteration. */
  function IterationAlerts(c: ChangeSet): seq<Alert> {
    Notifications(c.arrived, c.departed, c.portChanged)
  }

  /**
   * One event per device: the new devices first (low), then the
   * disconnected ones (low), then the changed ones, each with the highest
   * tier among its ports.
   */
  lemma IterationEventsLayout(c: ChangeSet, stamp: string)
    ensures |IterationEvents(c, stamp)| == |c.arrived| + |c.departed| + |c.portChanged|
    ensures forall i :: 0 <= i < |c.arrived| ==>
      IterationEvents(c, stamp)[i] == Event("Novo Dispositivo Conectado", c.arrived[i], Low, stamp)
    ensures forall i :: 0 <= i < |c.departed| ==>
      IterationEvents(c, stamp)[|c.arrived| + i] == Event("Dispositivo desconectado", c.departed[i], Low, stamp)
    ensures forall i :: 0 <= i < |c.portChanged| ==>
      IterationEvents(c, stamp)[|c.arrived| + |c.departed| + i] ==
        Event("Port Changes Detected", c.portChanged[i], DeviceRisk(c.portChanged[i].ports), stamp)
  {
  }

  /** A rescan that finds exactly the known table adds no event and sends no alert. */
  lemma QuietNetwork(t: DeviceTable, stamp: string)
    requires WellFormed(t)
    ensures IterationEvents(Diff(t, t), stamp) == []
    ensures IterationAlerts(Diff(t, t)) == []
  {
    DiffSelf(t);
  }

  /**
   * On the first iteration every scanned device is announced once as new:
   * on the dashboard as a low-risk event and in a single batch of alerts.
   */
  lemma FirstIteration(current: DeviceTable, stamp: string)
    ensures IterationEvents(Diff(EmptyTable, current), stamp) ==
      EventsFor("Novo Dispositivo Conectado", Values(current), Low, stamp)
    ensures IterationAlerts(Diff(EmptyTable, current)) ==
      (if Values(current) != [] then AlertsFor("Novo Dispositivo Conectado", Values(current), Low) else [])
  {
    DiffFromEmpty(current);
  }

  class NetworkMonitorBot {
    const networkMonitor: NetworkMonitor
    const discordNotifier: DiscordNotifier
    const webInterface: WebInterface

    /** The dashboard shows this bot's monitor, and both keep their own invariants. */
    ghost predicate Valid()
      reads this, networkMonitor, webInterface
    {
      && webInterface.networkMonitor == networkMonitor
      && networkMonitor.Valid()
      && webInterface.Valid()
    }

    /**
     * `__init__`: the three settings come from the environment variables
     * SCAN_INTERVAL, PORT_SCAN_TIMEOUT and PORT_SCAN_COMMON (`None` when
     * unset); an integer setting that `int()` rejects stops the start-up.
     */
    constructor (scanIntervalVar: Option<string>, portScanTimeoutVar: Option<string>, scanCommonVar: Option<string>)
      requires IntOrDefault(scanIntervalVar, 300).Some? && IntOrDefault(portScanTimeoutVar, 2).Some?
      ensures Valid()
      ensures networkMonitor.scanInterval == IntOrDefault(scanIntervalVar, 300).value
      ensures networkMonitor.portScanTimeout == IntOrDefault(portScanTimeoutVar, 2).value
      ensures networkMonitor.scanCommonPorts == EnvFlag(scanCommonVar)
      ensures networkMonitor.knownDevices == EmptyTable
      ensures webInterface.events == [] && discordNotifier.outbox == []
      ensures fresh(networkMonitor) && fresh(webInterface) && fresh(discordNotifier)
    {
      var monitor := new NetworkMonitor(IntOrDefault(scanIntervalVar, 300).value, IntOrDefault(portScanTimeoutVar, 2).value,
                                        EnvFlag(scanCommonVar));
      networkMonitor := monitor;
      discordNotifier := new DiscordNotifier();
      webInterface := new WebInterface(monitor);
    }

    /** The first two loops of `monitor_network`: one event of the given kind per device, at low risk. */
    static method LogDevices(web: WebInterface, kind: string, devices: seq<Device>, stamp: string)
      requires web.Valid()
      modifies web`events
      ensures web.Valid()
      ensures web.events == PushAll(old(web.events), EventsFor(kind, devices, Low, stamp))
    {
      var i := 0;
      while i < |devices|
        invariant 0 <= i <= |devices|
        invariant web.Valid()
        invariant web.events == PushAll(old(web.events), EventsFor(kind, devices[..i], Low, stamp))
      {
        web.AddEvent(kind, devices[i], stamp, Low);
        assert EventsFor(kind, devices[..i + 1], Low, stamp) ==
          EventsFor(kind, devices[..i], Low, stamp) + [Event(kind, devices[i], Low, stamp)];
        PushAllSnoc(old(web.events), EventsFor(kind, devices[..i], Low, stamp), Event(kind, devices[i], Low, stamp));
        i := i + 1;
      }
      assert devices[..i] == devices;
    }

    /** The third loop: each changed device logged with the highest tier among its ports. */
    static method LogChanged(web: WebInterface, devices: seq<Device>, stamp: string)
      requires web.Valid()
      modifies web`events
      ensures web.Valid()
      ensures web.events == PushAll(old(web.events), ChangedEvents(devices, stamp))
    {
      var i := 0;
      while i < |devices|
        invariant 0 <= i <= |devices|
        invariant web.Valid()
        invariant web.events == PushAll(old(web.events), ChangedEvents(devices[..i], stamp))
      {
        var device := devices[i];
        var riskLevel := AggregateRisk(device.ports);
        web.AddEvent("Port Changes Detected", device, stamp, riskLevel);
        var e := Event("Port Changes Detected", device, DeviceRisk(device.ports), stamp);
        assert ChangedEvents(devices[..i + 1], stamp) == ChangedEvents(devices[..i], stamp) + [e];
        PushAllSnoc(old(web.events), ChangedEvents(devices[..i], stamp), e);
        i := i + 1;
      }
      assert devices[..i] == devices;
    }

    /**
     * One iteration of `monitor_network`: the monitor takes the new scan as
     * its table, the dashboard log receives the iteration's events in
     * order, and only then are the alerts sent.
     */
    method MonitorOnce(ifaces: seq<Interface>, sweep: string -> Option<seq<HostReply>>, stamp: string)
      requires Valid()
      modifies networkMonitor`knownDevices, webInterface`events, discordNotifier`outbox
      ensures Valid()
      ensures networkMonitor.knownDevices == IndexByIp(ScannedDevices(ifaces, sweep, networkMonitor.scanCommonPorts))
      ensures webInterface.events ==
        PushAll(old(webInterface.events), IterationEvents(Diff(old(networkMonitor.knownDevices), networkMonitor.knownDevices), stamp))
      ensures discordNotifier.outbox ==
        old(discordNotifier.outbox) + IterationAlerts(Diff(old(networkMonitor.knownDevices), networkMonitor.knownDevices))
    {
      var newDevices, disconnectedDevices, changedDevices := networkMonitor.GetNetworkChanges(ifaces, sweep);
      ghost var start := webInterface.events;
      ghost var arrivals := EventsFor("Novo Dispositivo Conectado", newDevices, Low, stamp);
      ghost var departures := EventsFor("Dispositivo desconectado", disconnectedDevices, Low, stamp);
      ghost var changes := ChangedEvents(changedDevices, stamp);

      LogDevices(webInterface, "Novo Dispositivo Conectado", newDevices, stamp);
      LogDevices(webInterface, "Dispositivo desconectado", disconnectedDevices, stamp);
      PushAllConcat(start, arrivals, departures);
      LogChanged(webInterface, changedDevices, stamp);
      PushAllConcat(start, arrivals + departures, changes);
      assert IterationEvents(ChangeSet(newDevices, disconnectedDevices, changedDevices), stamp) == arrivals + departures + changes;

      discordNotifier.NotifyNetworkChanges(newDevices, disconnectedDevices, changedDevices);
    }
  }
}
