/**
 * Risk tiers of open ports (`NetworkMonitor.assess_port_risk`) and their
 * order High > Medium > Low, used to rank a changed device by its worst port.
 */
module Risk {
  import opened Text

  /** The strings 'low', 'medium' and 'high' of the source. */
  datatype Level = Low | Medium | High

  function Rank(r: Level): nat {
    match r
    case Low => 0
    case Medium => 1
    case High => 2
  }

  /** The larger of two tiers under High > Medium > Low. */
  function Max(a: Level, b: Level): (r: Level)
    ensures Rank(r) >= Rank(a) && Rank(r) >= Rank(b)
    ensures r == a || r == b
  {
    if Rank(a) >= Rank(b) then a else b
  }

  /** FTP, SSH, Telnet, RDP. */
  const HighRiskPorts: set<int> := {21, 22, 23, 3389}
  /** HTTP and HTTPS, plain and alternate. */
  const MediumRiskPorts: set<int> := {80, 443, 8080, 8443}
  const HighRiskServices: set<string> := {"telnet", "ftp", "rpc"}

  predicate HighRiskService(service: string) {
    Lower(service) in HighRiskServices
  }

  /**
   * `assess_port_risk`: high for a high-risk port number or a high-risk
   * service name in any letter case, otherwise medium for a web port,
   * otherwise low. Total: every port and service gets a tier.
   */
  function AssessPortRisk(port: int, service: string): (r: Level)
    ensures r == High <==> port in HighRiskPorts || HighRiskService(service)
    ensures r == Medium <==> !(port in HighRiskPorts || HighRiskService(service)) && port in MediumRiskPorts
    ensures r == Low <==> !(port in HighRiskPorts || HighRiskService(service)) && port !in MediumRiskPorts
  {
    if port in HighRiskPorts || HighRiskService(service) then High
    else if port in MediumRiskPorts then Medium
    else Low
  }

  /** Lower-casing twice changes nothing more. */
  lemma LowerIdempotent(s: string)
    ensures Lower(Lower(s)) == Lower(s)
  {
    forall i | 0 <= i < |s| ensures Lower(Lower(s))[i] == Lower(s)[i] {
      var c := s[i];
      if 'A' <= c <= 'Z' {
        assert LowerChar(c) as int == c as int + 32;
      }
    }
  }

  /** The service name is compared without regard to letter case. */
  lemma AssessIgnoresServiceCase(port: int, service: string)
    ensures AssessPortRisk(port, service) == AssessPortRisk(port, Lower(service))
  {
    LowerIdempotent(service);
  }

  /** Port numbers are checked first: a high-risk port is high whatever service it reports. */
  lemma HighRiskPortWins(port: int, service: string, other: string)
    requires port in HighRiskPorts
    ensures AssessPortRisk(port, service) == High == AssessPortRisk(port, other)
  {
  }

  /** The worked examples: (23, "ssh"), (8080, "http-proxy"), (9999, "custom"), (80, "FTP"). */
  lemma AssessExamples()
    ensures AssessPortRisk(23, "ssh") == High
    ensures AssessPortRisk(8080, "http-proxy") == Medium
    ensures AssessPortRisk(9999, "custom") == Low
    ensures AssessPortRisk(80, "FTP") == High
  {
    assert Lower("FTP") == "ftp";
    assert Lower("ssh") == "ssh";
    assert Lower("http-proxy") == "http-proxy";
    assert Lower("custom") == "custom";
  }
}
