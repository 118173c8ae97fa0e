/**
 * The pure parts of `NetworkMonitor.scan_network` and `scan_ports_async`:
 * choosing the local IPv4 address, deriving the /24 network to sweep from
 * it, reading nmap's text output into open ports, and assembling one device
 * record per host that answered the sweep. The interface list, the sweep
 * and nmap's output are inputs.
 */
module Scanning {
  import opened Wrappers
  import opened Text
  import opened Risk
  import opened Devices

  // ---------------------------------------------------------------------
  // Interface selection (get_network_interface)
  // ---------------------------------------------------------------------

  /** An interface name with its IPv4 (`AF_INET`) addresses, `None` when it has no IPv4 entry. */
  datatype Interface = Interface(name: string, inet: Option<seq<string>>)

  predicate IsLoopback(ip: string) {
    StartsWith(ip, "127.")
  }

  function Addresses(iface: Interface): seq<string> {
    if iface.inet.Some? then iface.inet.value else []
  }

  /** The first address of one interface that is not a loopback address. */
  function FirstUsable(addrs: seq<string>): Option<string> {
    if addrs == [] then None
    else if !IsLoopback(addrs[0]) then Some(addrs[0])
    else FirstUsable(addrs[1..])
  }

  /** The nested search of `get_network_interface`: interfaces in order, addresses in order. */
  function FirstNonLoopback(ifaces: seq<Interface>): Option<(string, string)> {
    if ifaces == [] then None
    else match FirstUsable(Addresses(ifaces[0]))
      case Some(ip) => Some((ifaces[0].name, ip))
      case None => FirstNonLoopback(ifaces[1..])
  }

  /** The (interface, address) pairs of one interface. */
  function Pairs(name: string, addrs: seq<string>): (r: seq<(string, string)>)
    ensures |r| == |addrs| && forall k :: 0 <= k < |addrs| ==> r[k] == (name, addrs[k])
  {
    seq(|addrs|, k requires 0 <= k < |addrs| => (name, addrs[k]))
  }

  /** Every (interface, address) pair in the order the search visits them. */
  function Candidates(ifaces: seq<Interface>): seq<(string, string)> {
    if ifaces == [] then []
    else Pairs(ifaces[0].name, Addresses(ifaces[0])) + Candidates(ifaces[1..])
  }

  predicate NoneUsable(cs: seq<(string, string)>) {
    forall k :: 0 <= k < |cs| ==> IsLoopback(cs[k].1)
  }

  /** Position `k` holds the first non-loopback candidate. */
  predicate FirstUsableAt(cs: seq<(string, string)>, k: int) {
    && 0 <= k < |cs|
    && !IsLoopback(cs[k].1)
    && forall m :: 0 <= m < k ==> IsLoopback(cs[m].1)
  }

  lemma {:induction false} FirstUsableSearch(name: string, addrs: seq<string>, rest: seq<(string, string)>)
    ensures FirstUsable(addrs).None? <==> forall k :: 0 <= k < |addrs| ==> IsLoopback(addrs[k])
    ensures FirstUsable(addrs).Some? ==>
      exists k :: FirstUsableAt(Pairs(name, addrs) + rest, k) && (Pairs(name, addrs) + rest)[k] == (name, FirstUsable(addrs).value)
    decreases |addrs|
  {
    var cs := Pairs(name, addrs) + rest;
    if addrs != [] {
      if !IsLoopback(addrs[0]) {
        assert FirstUsableAt(cs, 0);
      } else {
        var tail := addrs[1..];
        var cs' := Pairs(name, tail) + rest;
        FirstUsableSearch(name, tail, rest);
        assert cs == [(name, addrs[0])] + cs';
        if FirstUsable(tail).Some? {
          var k :| FirstUsableAt(cs', k) && cs'[k] == (name, FirstUsable(tail).value);
          assert FirstUsableAt(cs, k + 1);
        }
        if forall k :: 0 <= k < |tail| ==> IsLoopback(tail[k]) {
          forall k | 0 <= k < |addrs| ensures IsLoopback(addrs[k]) {
            if k > 0 { assert addrs[k] == tail[k - 1]; }
          }
        }
      }
    }
  }

  /**
   * The search returns the first non-loopback address over all interfaces
   * and addresses in order, and finds nothing exactly when every address is
   * a loopback address.
   */
  lemma {:induction false} FirstNonLoopbackSearch(ifaces: seq<Interface>)
    ensures FirstNonLoopback(ifaces).None? <==> NoneUsable(Candidates(ifaces))
    ensures FirstNonLoopback(ifaces).Some? ==>
      exists k :: FirstUsableAt(Candidates(ifaces), k) && Candidates(ifaces)[k] == FirstNonLoopback(ifaces).value
    decreases |ifaces|
  {
    if ifaces != [] {
      var addrs := Addresses(ifaces[0]);
      var name := ifaces[0].name;
      var pairs := Pairs(name, addrs);
      var rest := Candidates(ifaces[1..]);
      var cs := Candidates(ifaces);
      assert cs == pairs + rest;
      FirstUsableSearch(name, addrs, rest);
      if FirstUsable(addrs).None? {
        assert FirstNonLoopback(ifaces) == FirstNonLoopback(ifaces[1..]);
        FirstNonLoopbackSearch(ifaces[1..]);
        if FirstNonLoopback(ifaces[1..]).Some? {
          var k :| FirstUsableAt(rest, k) && rest[k] == FirstNonLoopback(ifaces[1..]).value;
          assert FirstUsableAt(cs, |pairs| + k) by {
            forall m | 0 <= m < |pairs| + k ensures IsLoopback(cs[m].1) {
              if m < |pairs| { assert cs[m] == pairs[m]; } else { assert cs[m] == rest[m - |pairs|]; }
            }
          }
          assert !IsLoopback(cs[|pairs| + k].1);
        } else {
          forall k | 0 <= k < |cs| ensures IsLoopback(cs[k].1) {
            if k < |pairs| {
              assert cs[k] == pairs[k] && pairs[k].1 == addrs[k];
            } else {
              assert cs[k] == rest[k - |pairs|];
            }
          }
        }
      } else {
        assert FirstNonLoopback(ifaces) == Some((name, FirstUsable(addrs).value));
        var k :| FirstUsableAt(cs, k) && cs[k] == (name, FirstUsable(addrs).value);
        assert !IsLoopback(cs[k].1);
      }
    }
  }

  /**
   * `get_network_interface` over the result of `netifaces.interfaces()` and
   * `netifaces.ifaddresses`: a nested search that returns at the first
   * address not starting with "127.".
   */
  method GetNetworkInterface(ifaces: seq<Interface>) returns (found: Option<(string, string)>)
    ensures found == FirstNonLoopback(ifaces)
  {
    var i := 0;
    while i < |ifaces|
      invariant 0 <= i <= |ifaces|
      invariant FirstNonLoopback(ifaces) == FirstNonLoopback(ifaces[i..])
    {
      assert ifaces[i..][1..] == ifaces[i + 1..];
      if ifaces[i].inet.Some? {
        var addrs := ifaces[i].inet.value;
        var j := 0;
        while j < |addrs|
          invariant 0 <= j <= |addrs|
          invariant FirstUsable(addrs) == FirstUsable(addrs[j..])
        {
          var ip := addrs[j];
          if !IsLoopback(ip) {
            return Some((ifaces[i].name, ip));
          }
          assert addrs[j..][1..] == addrs[j + 1..];
          j := j + 1;
        }
      }
      i := i + 1;
    }
    return None;
  }

  // ---------------------------------------------------------------------
  // The network to sweep: '.'.join(ip.split('.')[:-1]) + '.0/24'
  // ---------------------------------------------------------------------

  function NetworkOf(ip: string): string {
    var parts := SplitOn(ip, '.');
    Join(parts[..|parts| - 1], '.') + ".0/24"
  }

  /** The network is the address without its last dotted component, followed by ".0/24". */
  lemma NetworkDropsLastComponent(prefix: string, last: string)
    requires '.' !in last
    ensures NetworkOf(prefix + "." + last) == prefix + ".0/24"
  {
    SplitAtLastSeparator(prefix, '.', last);
    assert prefix + "." + last == prefix + ['.'] + last;
    var parts := SplitOn(prefix + "." + last, '.');
    assert parts[..|parts| - 1] == SplitOn(prefix, '.');
    JoinSplit(prefix, '.');
  }

  /** An address without any dot has no component to keep. */
  lemma NetworkOfDotless(ip: string)
    requires '.' !in ip
    ensures NetworkOf(ip) == ".0/24"
  {
    SplitWithoutSeparator(ip, '.');
  }

  lemma NetworkExample()
    ensures NetworkOf("192.168.1.37") == "192.168.1.0/24"
  {
    NetworkDropsLastComponent("192.168.1", "37");
    assert "192.168.1" + "." + "37" == "192.168.1.37";
  }

  // ---------------------------------------------------------------------
  // nmap output (scan_ports_async)
  // ---------------------------------------------------------------------

  /** The lines the scanner reads: those containing both "open" and "tcp". */
  predicate IsPortLine(line: string) {
    Contains(line, "open") && Contains(line, "tcp")
  }

  /**
   * One port line: the port from the first field up to '/', the service
   * from the third field or "unknown", the tier from `AssessPortRisk`.
   * `None` is the `IndexError` or `ValueError` that makes the whole scan
   * of the host return no ports.
   */
  function ParsePortLine(line: string): (r: Option<Port>)
    ensures r.Some? ==> r.value.risk == AssessPortRisk(r.value.number, r.value.service)
  {
    var parts := Fields(line);
    if |parts| == 0 then None
    else match ParseInt(SplitOn(parts[0], '/')[0])
      case None => None
      case Some(port) =>
        var service := if |parts| > 2 then parts[2] else "unknown";
        Some(Port(port, service, AssessPortRisk(port, service)))
  }

  /** The ports of the port lines among `lines`, or `None` once one of them fails to parse. */
  function ParseLines(lines: seq<string>): Option<seq<Port>>
    decreases |lines|
  {
    if lines == [] then Some([])
    else match ParseLines(lines[..|lines| - 1])
      case None => None
      case Some(ps) =>
        var line := lines[|lines| - 1];
        if !IsPortLine(line) then Some(ps)
        else match ParsePortLine(line)
          case None => None
          case Some(p) => Some(ps + [p])
  }

  /** The lines that contain "open" and "tcp", in order. */
  function PortLines(lines: seq<string>): seq<string>
    decreases |lines|
  {
    if lines == [] then []
    else PortLines(lines[..|lines| - 1]) + (if IsPortLine(lines[|lines| - 1]) then [lines[|lines| - 1]] else [])
  }

  predicate AllParse(lines: seq<string>) {
    forall k :: 0 <= k < |lines| ==> ParsePortLine(lines[k]).Some?
  }

  /** `ports` holds, position by position, what each of `lines` parses to. */
  predicate ParsedFrom(lines: seq<string>, ports: seq<Port>) {
    |ports| == |lines| && forall k :: 0 <= k < |lines| ==> ParsePortLine(lines[k]) == Some(ports[k])
  }

  /**
   * Parsing succeeds exactly when every port line parses, and then yields
   * one port per port line, in line order.
   */
  lemma {:induction false} ParseLinesSpec(lines: seq<string>)
    ensures ParseLines(lines).Some? <==> AllParse(PortLines(lines))
    ensures ParseLines(lines).Some? ==> ParsedFrom(PortLines(lines), ParseLines(lines).value)
    decreases |lines|
  {
    if lines != [] {
      var init := lines[..|lines| - 1];
      var line := lines[|lines| - 1];
      ParseLinesSpec(init);
      var pl0 := PortLines(init);
      var pl := PortLines(lines);
      if IsPortLine(line) {
        assert pl == pl0 + [line];
        if ParseLines(lines).Some? {
          assert ParseLines(init).Some?;
          forall k | 0 <= k < |pl| ensures ParsePortLine(pl[k]).Some? {
            if k < |pl0| { assert pl[k] == pl0[k]; } else { assert pl[k] == line; }
          }
        }
        if forall k :: 0 <= k < |pl| ==> ParsePortLine(pl[k]).Some? {
          forall k | 0 <= k < |pl0| ensures ParsePortLine(pl0[k]).Some? {
            assert pl[k] == pl0[k];
          }
          assert pl[|pl0|] == line;
          assert ParsePortLine(line).Some?;
          assert ParseLines(init).Some?;
        }
      } else {
        assert pl == pl0;
      }
    }
  }

  /** A failure on some prefix of the lines is a failure of the whole output. */
  lemma {:induction false} ParseFailurePersists(lines: seq<string>, n: nat)
    requires n <= |lines| && ParseLines(lines[..n]).None?
    ensures ParseLines(lines).None?
    decreases |lines| - n
  {
    if n < |lines| {
      assert lines[..n + 1][..n] == lines[..n];
      ParseFailurePersists(lines, n + 1);
    } else {
      assert lines[..n] == lines;
    }
  }

  /** `scan_ports_async` after nmap has run: no ports unless it exited with 0 and every port line parsed. */
  function ScanPortsResult(returnCode: int, stdout: string): seq<Port> {
    if returnCode != 0 then []
    else match ParseLines(SplitOn(stdout, '\n'))
      case Some(ports) => ports
      case None => []
  }

  /**
   * Each port the scan reports is one the scanner's own parser reads from a
   * port line, with the tier `AssessPortRisk` gives it; a failed nmap run
   * reports none.
   */
  lemma ScanPortsSound(returnCode: int, stdout: string)
    ensures returnCode != 0 ==> ScanPortsResult(returnCode, stdout) == []
    ensures forall p :: p in ScanPortsResult(returnCode, stdout) ==> p.risk == AssessPortRisk(p.number, p.service)
    ensures returnCode == 0 && AllParse(PortLines(SplitOn(stdout, '\n'))) ==>
      ParsedFrom(PortLines(SplitOn(stdout, '\n')), ScanPortsResult(returnCode, stdout))
  {
    var lines := SplitOn(stdout, '\n');
    ParseLinesSpec(lines);
    if returnCode == 0 && ParseLines(lines).Some? {
      var ports := ParseLines(lines).value;
      forall p | p in ports ensures p.risk == AssessPortRisk(p.number, p.service) {
        var k :| 0 <= k < |ports| && ports[k] == p;
        assert ParsePortLine(PortLines(lines)[k]) == Some(p);
      }
    }
  }

  /** The parsing loop of `scan_ports_async`, over nmap's exit code and decoded standard output. */
  method ParseNmapOutput(returnCode: int, stdout: string) returns (openPorts: seq<Port>)
    ensures openPorts == ScanPortsResult(returnCode, stdout)
  {
    openPorts := [];
    if returnCode == 0 {
      var lines := SplitOn(stdout, '\n');
      var i := 0;
      while i < |lines|
        invariant 0 <= i <= |lines|
        invariant ParseLines(lines[..i]) == Some(openPorts)
      {
        var line := lines[i];
        assert lines[..i + 1][..i] == lines[..i];
        if Contains(line, "open") && Contains(line, "tcp") {
          var parts := Fields(line);
          if |parts| == 0 {
            ParseFailurePersists(lines, i + 1);
            return [];
          }
          var port := ParseInt(SplitOn(parts[0], '/')[0]);
          if port.None? {
            ParseFailurePersists(lines, i + 1);
            return [];
          }
          var service := if |parts| > 2 then parts[2] else "unknown";
          openPorts := openPorts + [Port(port.value, service, AssessPortRisk(port.value, service))];
        }
        i := i + 1;
      }
      assert lines[..i] == lines;
    }
  }

  /** The shape of an nmap port row, "<port>/tcp open <service>". */
  function NmapRow(port: nat, service: string): string {
    IntToString(port) + "/tcp" + " " + "open" + " " + service
  }

  lemma NmapRowFields(port: nat, service: string)
    requires |service| > 0 && NoSpace(service)
    ensures Fields(NmapRow(port, service)) == [IntToString(port) + "/tcp", "open", service]
  {
    var first := IntToString(port) + "/tcp";
    PortField(port);
    assert NmapRow(port, service) == first + " " + ("open" + " " + service);
    FieldsOfWordThenSpace(first, "open" + " " + service);
    FieldsOfWordThenSpace("open", service);
    FieldsOfWord(service);
  }

  /** The first field of a row, "<port>/tcp", is one word whose part before '/' is the port in decimal. */
  lemma PortField(port: nat)
    ensures |IntToString(port) + "/tcp"| > 0 && NoSpace(IntToString(port) + "/tcp")
    ensures SplitOn(IntToString(port) + "/tcp", '/')[0] == IntToString(port)
  {
    var num := IntToString(port);
    IntToStringRoundTrip(port);
    var first := num + "/tcp";
    forall i | 0 <= i < |first| ensures !IsSpace(first[i]) {
      if i >= |num| { assert first[i] == "/tcp"[i - |num|]; }
      else { assert first[i] == num[i]; }
    }
    assert first == num + ['/'] + "tcp";
    SplitAtFirstSeparator(num, '/', "tcp");
  }

  lemma NmapRowIsPortLine(port: nat, service: string)
    ensures IsPortLine(NmapRow(port, service))
  {
    var num := IntToString(port);
    var line := NmapRow(port, service);
    assert line == (num + "/tcp ") + "open" + (" " + service);
    ContainsMiddle(num + "/tcp ", "open", " " + service);
    assert line == (num + "/") + "tcp" + (" open " + service);
    ContainsMiddle(num + "/", "tcp", " open " + service);
  }

  /** A row nmap prints for an open TCP port is read back as that port, its service and its tier. */
  lemma ParseNmapRow(port: nat, service: string)
    requires |service| > 0 && NoSpace(service)
    ensures IsPortLine(NmapRow(port, service))
    ensures ParsePortLine(NmapRow(port, service)) == Some(Port(port, service, AssessPortRisk(port, service)))
  {
    IntToStringRoundTrip(port);
    NmapRowIsPortLine(port, service);
    NmapRowFields(port, service);
    PortField(port);
  }

  /** A row with no service column: "<port>/tcp open". */
  function NmapRowWithoutService(port: nat): string {
    IntToString(port) + "/tcp" + " " + "open"
  }

  /** A row without a third field is read back as that port with the service "unknown", and its tier. */
  lemma ParseNmapRowWithoutService(port: nat)
    ensures IsPortLine(NmapRowWithoutService(port))
    ensures ParsePortLine(NmapRowWithoutService(port)) ==
      Some(Port(port, "unknown", AssessPortRisk(port, "unknown")))
  {
    IntToStringRoundTrip(port);
    PortField(port);
    ShortRowFields(port);
    ShortRowIsPortLine(port);
  }

  lemma ShortRowFields(port: nat)
    ensures Fields(NmapRowWithoutService(port)) == [IntToString(port) + "/tcp", "open"]
  {
    var first := IntToString(port) + "/tcp";
    PortField(port);
    FieldsOfWordThenSpace(first, "open");
    FieldsOfWord("open");
  }

  lemma ShortRowIsPortLine(port: nat)
    ensures IsPortLine(NmapRowWithoutService(port))
  {
    var num := IntToString(port);
    var line := NmapRowWithoutService(port);
    assert line == (num + "/tcp ") + "open" + [];
    ContainsMiddle(num + "/tcp ", "open", []);
    assert line == (num + "/") + "tcp" + " open";
    ContainsMiddle(num + "/", "tcp", " open");
  }

  // ---------------------------------------------------------------------
  // Device assembly (scan_network)
  // ---------------------------------------------------------------------

  /**
   * What the ARP sweep reported for one host (`psrc`, `hwsrc`), what nmap
   * printed when probing it, and the clock reading taken for its record.
   */
  datatype HostReply = HostReply(ip: string, mac: string, nmapReturnCode: int, nmapOutput: string, seenAt: string)

  function DeviceOf(reply: HostReply, commonPorts: bool): Device {
    Device(reply.ip, reply.mac, reply.seenAt,
           if commonPorts then ScanPortsResult(reply.nmapReturnCode, reply.nmapOutput) else [])
  }

  /**
   * `scan_network`: no devices when no interface qualifies or when the sweep
   * raised (`None`), otherwise one device per reply, in reply order, with
   * ports only when common-port scanning is on.
   */
  function ScannedDevices(ifaces: seq<Interface>, sweep: string -> Option<seq<HostReply>>,
                          commonPorts: bool): seq<Device>
  {
    match FirstNonLoopback(ifaces)
    case None => []
    case Some(found) =>
      match sweep(NetworkOf(found.1))
      case None => []
      case Some(replies) => seq(|replies|, k requires 0 <= k < |replies| => DeviceOf(replies[k], commonPorts))
  }

  /**
   * The scan yields nothing without a usable interface or when the sweep
   * raised; otherwise one device per answering host, in reply order, with
   * the host's own addresses and clock reading, the ports read from that
   * host's own nmap run when common-port scanning is on and none when it is
   * off, and every port carrying the tier `AssessPortRisk` gives it.
   */
  lemma ScannedDevicesSpec(ifaces: seq<Interface>, sweep: string -> Option<seq<HostReply>>, commonPorts: bool)
    ensures FirstNonLoopback(ifaces).None? ==> ScannedDevices(ifaces, sweep, commonPorts) == []
    ensures FirstNonLoopback(ifaces).Some? ==>
      match sweep(NetworkOf(FirstNonLoopback(ifaces).value.1))
      case None => ScannedDevices(ifaces, sweep, commonPorts) == []
      case Some(replies) =>
        && |ScannedDevices(ifaces, sweep, commonPorts)| == |replies|
        && forall k :: 0 <= k < |replies| ==>
             && ScannedDevices(ifaces, sweep, commonPorts)[k].ip == replies[k].ip
             && ScannedDevices(ifaces, sweep, commonPorts)[k].mac == replies[k].mac
             && ScannedDevices(ifaces, sweep, commonPorts)[k].timestamp == replies[k].seenAt
             && ScannedDevices(ifaces, sweep, commonPorts)[k].ports ==
                  (if commonPorts then ScanPortsResult(replies[k].nmapReturnCode, replies[k].nmapOutput) else [])
    ensures forall d :: d in ScannedDevices(ifaces, sweep, commonPorts) ==>
      (!commonPorts ==> d.ports == []) &&
      forall p :: p in d.ports ==> p.risk == AssessPortRisk(p.number, p.service)
  {
    var devices := ScannedDevices(ifaces, sweep, commonPorts);
    forall d | d in devices
      ensures (!commonPorts ==> d.ports == []) && forall p :: p in d.ports ==> p.risk == AssessPortRisk(p.number, p.service)
    {
      var found := FirstNonLoopback(ifaces).value;
      var replies := sweep(NetworkOf(found.1)).value;
      var k :| 0 <= k < |replies| && devices[k] == d;
      ScanPortsSound(replies[k].nmapReturnCode, replies[k].nmapOutput);
    }
  }
}
