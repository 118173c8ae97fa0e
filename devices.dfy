/**
 * The records the monitor passes around: an open port as the nmap parser
 * builds it, a device as `scan_network` builds it, and the risk of a device
 * whose ports changed, as `monitor_network` and `notify_network_changes`
 * compute it with the same loop.
 */
module Devices {
  import opened Risk

  /** `{'port': ..., 'service': ..., 'risk_level': ...}`. */
  datatype Port = Port(number: int, service: string, risk: Level)

  /**
   * `{'ip': ..., 'mac': ..., 'timestamp': ..., 'ports': [...]}`. Every
   * device the monitor holds is built by `scan_network` with all four keys.
   */
  datatype Device = Device(ip: string, mac: string, timestamp: string, ports: seq<Port>)

  /** `{p['port'] for p in ports}`: the set of port numbers, without services or tiers. */
  function PortNumbers(ports: seq<Port>): set<int> {
    set p | p in ports :: p.number
  }

  /** The largest tier among the ports, `Low` when there are none. */
  function DeviceRisk(ports: seq<Port>): Level
    decreases |ports|
  {
    if ports == [] then Low
    else Max(DeviceRisk(ports[..|ports| - 1]), ports[|ports| - 1].risk)
  }

  predicate HasRisk(ports: seq<Port>, r: Level) {
    exists i :: 0 <= i < |ports| && ports[i].risk == r
  }

  /**
   * The device's tier is high if any port is high, otherwise medium if any
   * port is medium, otherwise low (also for a device without ports).
   */
  lemma {:induction false} DeviceRiskCases(ports: seq<Port>)
    ensures DeviceRisk(ports) == High <==> HasRisk(ports, High)
    ensures DeviceRisk(ports) == Medium <==> !HasRisk(ports, High) && HasRisk(ports, Medium)
    ensures DeviceRisk(ports) == Low <==> !HasRisk(ports, High) && !HasRisk(ports, Medium)
    decreases |ports|
  {
    if ports != [] {
      var init := ports[..|ports| - 1];
      DeviceRiskCases(init);
      forall r ensures HasRisk(ports, r) <==> HasRisk(init, r) || ports[|ports| - 1].risk == r {
        if HasRisk(init, r) {
          var i :| 0 <= i < |init| && init[i].risk == r;
          assert ports[i] == init[i];
        }
        if HasRisk(ports, r) {
          var i :| 0 <= i < |ports| && ports[i].risk == r;
          if i < |init| { assert init[i] == ports[i]; }
        }
      }
    }
  }

  /** The device's tier is the maximum of its ports' tiers: no port ranks above it, and some port attains it. */
  lemma DeviceRiskIsMaximum(ports: seq<Port>)
    ensures forall i :: 0 <= i < |ports| ==> Rank(ports[i].risk) <= Rank(DeviceRisk(ports))
    ensures ports != [] ==> HasRisk(ports, DeviceRisk(ports))
  {
    DeviceRiskCases(ports);
    if ports != [] && DeviceRisk(ports) == Low {
      assert ports[0].risk == Low;
    }
  }

  /** The order of the ports does not matter. */
  lemma DeviceRiskIgnoresOrder(ports: seq<Port>, others: seq<Port>)
    requires multiset(ports) == multiset(others)
    ensures DeviceRisk(ports) == DeviceRisk(others)
  {
    DeviceRiskCases(ports);
    DeviceRiskCases(others);
    forall r ensures HasRisk(ports, r) <==> HasRisk(others, r) {
      if HasRisk(ports, r) {
        var i :| 0 <= i < |ports| && ports[i].risk == r;
        assert ports[i] in multiset(others);
        var j :| 0 <= j < |others| && others[j] == ports[i];
      }
      if HasRisk(others, r) {
        var i :| 0 <= i < |others| && others[i].risk == r;
        assert others[i] in multiset(ports);
        var j :| 0 <= j < |ports| && ports[j] == others[i];
      }
    }
  }

  /**
   * The loop of `monitor_network` and `notify_network_changes`: start at
   * low, stop at the first high port, move to medium on a medium port.
   */
  method AggregateRisk(ports: seq<Port>) returns (risk: Level)
    ensures risk == DeviceRisk(ports)
  {
    risk := Low;
    var i := 0;
    while i < |ports|
      invariant 0 <= i <= |ports|
      invariant risk == DeviceRisk(ports[..i]) && risk != High
    {
      assert ports[..i + 1][..i] == ports[..i];
      if ports[i].risk == High {
        risk := High;
        DeviceRiskCases(ports);
        break;
      } else if ports[i].risk == Medium {
        risk := Medium;
      }
      i := i + 1;
    }
    if i == |ports| {
      assert ports[..i] == ports;
    }
  }
}
