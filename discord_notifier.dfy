/**
 * `DiscordNotifier`: the alerts the bot sends to its user as embeds. The
 * Discord client is not modelled; every embed `user.send` delivers is
 * appended to `outbox`, in sending order.
 */
module Discord {
  import opened Text
  import opened Risk
  import opened Devices

  /** An embed field (`inline=False` on every field the notifier adds). */
  datatype EmbedField = EmbedField(name: string, value: string)

  /** The embed of one alert: its title, colour, fields and footer text. */
  datatype Alert = Alert(title: string, color: int, fields: seq<EmbedField>, footer: string)

  /** Red, yellow and green circles. */
  function RiskEmoji(r: Level): string {
    match r
    case High => "\U{1F534}"
    case Medium => "\U{1F7E1}"
    case Low => "\U{1F7E2}"
  }

  function RiskColor(r: Level): int {
    match r
    case High => 0xFF0000
    case Medium => 0xFFFF00
    case Low => 0x00FF00
  }

  function RiskText(r: Level): string {
    match r
    case High => "\U{26A0}\U{FE0F} ALTO RISCO"
    case Medium => "\U{26A0}\U{FE0F} Risco Médio"
    case Low => "\U{2705} Baixo Risco"
  }

  /** Each tier has its own emoji, colour and text. */
  lemma RiskPresentationDistinct(a: Level, b: Level)
    requires a != b
    ensures RiskEmoji(a) != RiskEmoji(b) && RiskColor(a) != RiskColor(b) && RiskText(a) != RiskText(b)
  {
  }

  const Footer: string := "Horário da Detecção"

  /** The alert types `notify_network_changes` passes to `send_alert`. */
  const NewDeviceTitle: string := "Novo Dispositivo Conectado"
  const DisconnectedTitle: string := "Dispositivo Desconectado"
  const PortChangeTitle: string := "Alterações de Porta Detectadas"

  function DeviceField(d: Device): EmbedField {
    EmbedField("\U{1F4F1} Informações do Dispositivo",
               "\U{1F310} **Endereço IP:** " + d.ip + "\n\U{1F4CD} **Endereço MAC:** " + d.mac)
  }

  /** The two lines of one port: emoji, number and service, then the indented risk text. */
  function PortLine(p: Port): (line: string)
    ensures |line| > 0
  {
    RiskEmoji(p.risk) + " Porta **" + IntToString(p.number) + "** - " + p.service
      + "\n   \U{2514}\U{2500} " + RiskText(p.risk) + "\n"
  }

  /** `ports_info`: the port lines one after the other. */
  function PortsInfo(ports: seq<Port>): string
    decreases |ports|
  {
    if ports == [] then "" else PortsInfo(ports[..|ports| - 1]) + PortLine(ports[|ports| - 1])
  }

  /** The port text is empty exactly when there are no ports, so the inner `if ports_info` never fails. */
  lemma PortsInfoEmpty(ports: seq<Port>)
    ensures PortsInfo(ports) == "" <==> ports == []
  {
    if ports != [] {
      assert |PortsInfo(ports)| >= |PortLine(ports[|ports| - 1])| > 0;
    }
  }

  function PortsField(ports: seq<Port>): EmbedField {
    EmbedField("\U{1F50D} Portas Abertas", PortsInfo(ports))
  }

  /** The embed `send_alert` builds for one device. */
  function DeviceAlert(alertType: string, d: Device, risk: Level): Alert {
    Alert(RiskEmoji(risk) + " Alerta de Rede: " + alertType,
          RiskColor(risk),
          [DeviceField(d)] + (if d.ports != [] && PortsInfo(d.ports) != "" then [PortsField(d.ports)] else []),
          Footer)
  }

  /**
   * The alert carries the tier's emoji in its title and its colour, the
   * device field first, and a ports field exactly when the device has ports.
   */
  lemma DeviceAlertShape(alertType: string, d: Device, risk: Level)
    ensures DeviceAlert(alertType, d, risk).title[..|RiskEmoji(risk)|] == RiskEmoji(risk)
    ensures DeviceAlert(alertType, d, risk).color == RiskColor(risk)
    ensures DeviceAlert(alertType, d, risk).fields[0] == DeviceField(d)
    ensures |DeviceAlert(alertType, d, risk).fields| == 2 <==> d.ports != []
    ensures d.ports != [] ==> DeviceAlert(alertType, d, risk).fields[1] == PortsField(d.ports)
  {
    PortsInfoEmpty(d.ports);
    var e := RiskEmoji(risk);
    assert (e + " Alerta de Rede: " + alertType)[..|e|] == e;
  }

  /** `f` applied to each element, in order. */
  function Each<T>(f: Device -> T, ds: seq<Device>): (r: seq<T>)
    ensures |r| == |ds|
    ensures forall i :: 0 <= i < |ds| ==> r[i] == f(ds[i])
  {
    seq(|ds|, i requires 0 <= i < |ds| => f(ds[i]))
  }

  lemma EachStep<T>(f: Device -> T, ds: seq<Device>, i: int)
    requires 0 <= i < |ds|
    ensures Each(f, ds[..i + 1]) == Each(f, ds[..i]) + [f(ds[i])]
  {
    assert Each(f, ds[..i + 1])[i] == f(ds[i]);
  }

  /** The embed of one device for a given alert type and tier. */
  function AlertOf(alertType: string, risk: Level): Device -> Alert {
    d => DeviceAlert(alertType, d, risk)
  }

  /** `send_alert(alert_type, devices, risk_level)`: one embed per device, in list order. */
  function AlertsFor(alertType: string, devices: seq<Device>, risk: Level): (alerts: seq<Alert>)
    ensures |alerts| == |devices|
    ensures forall i :: 0 <= i < |devices| ==> alerts[i] == DeviceAlert(alertType, devices[i], risk)
  {
    Each(AlertOf(alertType, risk), devices)
  }

  /** The alert `notify_network_changes` sends for one changed device: its own tier. */
  function ChangedAlert(d: Device): Alert {
    DeviceAlert(PortChangeTitle, d, DeviceRisk(d.ports))
  }

  /** One alert per changed device, in list order, each with the device's highest port tier. */
  function ChangedAlerts(changed: seq<Device>): (alerts: seq<Alert>)
    ensures |alerts| == |changed|
    ensures forall i :: 0 <= i < |changed| ==>
      alerts[i] == DeviceAlert(PortChangeTitle, changed[i], DeviceRisk(changed[i].ports))
  {
    Each(ChangedAlert, changed)
  }

  /** Sending the next changed device on its own appends its alert. */
  lemma ChangedAlertsStep(changed: seq<Device>, i: int)
    requires 0 <= i < |changed|
    ensures ChangedAlerts(changed[..i + 1]) ==
      ChangedAlerts(changed[..i]) + AlertsFor(PortChangeTitle, [changed[i]], DeviceRisk(changed[i].ports))
  {
    EachStep(ChangedAlert, changed, i);
    assert AlertsFor(PortChangeTitle, [changed[i]], DeviceRisk(changed[i].ports)) == [ChangedAlert(changed[i])];
  }

  /** Everything `notify_network_changes` sends, in order. */
  function Notifications(newDevices: seq<Device>, disconnected: seq<Device>, changed: seq<Device>): seq<Alert> {
    (if newDevices != [] then AlertsFor(NewDeviceTitle, newDevices, Low) else [])
    + (if disconnected != [] then AlertsFor(DisconnectedTitle, disconnected, Low) else [])
    + (if changed != [] then ChangedAlerts(changed) else [])
  }

  /**
   * The notifications are the new devices' alerts (low), then the
   * disconnected devices' alerts (low), then one alert per changed device:
   * one message per device, and none at all for three empty lists.
   */
  lemma NotificationsLayout(newDevices: seq<Device>, disconnected: seq<Device>, changed: seq<Device>)
    ensures Notifications(newDevices, disconnected, changed) ==
      AlertsFor(NewDeviceTitle, newDevices, Low)
      + AlertsFor(DisconnectedTitle, disconnected, Low)
      + ChangedAlerts(changed)
    ensures |Notifications(newDevices, disconnected, changed)| == |newDevices| + |disconnected| + |changed|
  {
  }

  lemma SeqAssoc(o: seq<Alert>, a: seq<Alert>, b: seq<Alert>, c: seq<Alert>)
    ensures o + a + b + c == o + (a + b + c)
  {
  }

  class DiscordNotifier {
    /** The embeds delivered to the user, oldest first. */
    var outbox: seq<Alert>

    constructor ()
      ensures outbox == []
    {
      outbox := [];
    }

    /** The loop that builds `ports_info`. */
    static method PortsInfoText(ports: seq<Port>) returns (info: string)
      ensures info == PortsInfo(ports)
    {
      info := "";
      var i := 0;
      while i < |ports|
        invariant 0 <= i <= |ports|
        invariant info == PortsInfo(ports[..i])
      {
        assert ports[..i + 1][..i] == ports[..i];
        info := info + PortLine(ports[i]);
        i := i + 1;
      }
      assert ports[..i] == ports;
    }

    /** The embed the loop of `send_alert` builds for one device. */
    static method BuildEmbed(alertType: string, device: Device, risk: Level) returns (alert: Alert)
      ensures alert == DeviceAlert(alertType, device, risk)
    {
      var fields := [DeviceField(device)];
      if device.ports != [] {
        var portsInfo := PortsInfoText(device.ports);
        if portsInfo != "" {
          fields := fields + [PortsField(device.ports)];
        }
      }
      alert := Alert(RiskEmoji(risk) + " Alerta de Rede: " + alertType, RiskColor(risk), fields, Footer);
    }

    /** `send_alert`: one embed per device, sent in list order. */
    method SendAlert(alertType: string, devices: seq<Device>, risk: Level := Low)
      modifies this`outbox
      ensures outbox == old(outbox) + AlertsFor(alertType, devices, risk)
    {
      var i := 0;
      while i < |devices|
        invariant 0 <= i <= |devices|
        invariant outbox == old(outbox) + AlertsFor(alertType, devices[..i], risk)
      {
        var alert := BuildEmbed(alertType, devices[i], risk);
        outbox := outbox + [alert];
        EachStep(AlertOf(alertType, risk), devices, i);
        i := i + 1;
      }
      assert devices[..i] == devices;
    }

    /** The last loop of `notify_network_changes`: each changed device in an alert of its own. */
    method SendChangedAlerts(changed: seq<Device>)
      modifies this`outbox
      ensures outbox == old(outbox) + ChangedAlerts(changed)
    {
      var i := 0;
      while i < |changed|
        invariant 0 <= i <= |changed|
        invariant outbox == old(outbox) + ChangedAlerts(changed[..i])
      {
        var device := changed[i];
        var risk := AggregateRisk(device.ports);
        SendAlert(PortChangeTitle, [device], risk);
        ChangedAlertsStep(changed, i);
        i := i + 1;
      }
      assert changed[..i] == changed;
    }

    /** `notify_network_changes`: new, then disconnected, then each changed device with its own tier. */
    method NotifyNetworkChanges(newDevices: seq<Device>, disconnected: seq<Device>, changed: seq<Device>)
      modifies this`outbox
      ensures outbox == old(outbox) + Notifications(newDevices, disconnected, changed)
    {
      ghost var arrivals := if newDevices != [] then AlertsFor(NewDeviceTitle, newDevices, Low) else [];
      ghost var departures := if disconnected != [] then AlertsFor(DisconnectedTitle, disconnected, Low) else [];
      ghost var changes := if changed != [] then ChangedAlerts(changed) else [];
      if newDevices != [] {
        SendAlert(NewDeviceTitle, newDevices, Low);
      }
      ghost var first := outbox;
      if disconnected != [] {
        SendAlert(DisconnectedTitle, disconnected, Low);
      }
      ghost var second := outbox;
      if changed != [] {
        SendChangedAlerts(changed);
      }
      assert first == old(outbox) + arrivals;
      assert second == first + departures;
      assert outbox == second + changes;
      SeqAssoc(old(outbox), arrivals, departures, changes);
    }
  }
}
