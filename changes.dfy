/**
 * The device table the monitor keeps between scans (a Python dict keyed by
 * IP, which remembers the order its keys were first inserted) and the
 * comparison `get_network_changes` makes between the last table and a new
 * scan: devices that arrived, devices that left, and devices whose set of
 * open port numbers changed.
 */
module Changes {
  import opened Devices

  /** A dict from IP to device: its keys in insertion order, and its entries. */
  datatype DeviceTable = DeviceTable(order: seq<string>, byIp: map<string, Device>)

  const EmptyTable: DeviceTable := DeviceTable([], map[])

  /** The keys are listed once each, exactly the map's keys, and each entry is filed under its own IP. */
  ghost predicate WellFormed(t: DeviceTable) {
    && (forall i, j :: 0 <= i < j < |t.order| ==> t.order[i] != t.order[j])
    && (forall ip :: ip in t.byIp <==> ip in t.order)
    && (forall ip :: ip in t.byIp ==> t.byIp[ip].ip == ip)
  }

  /** Every listed key has an entry, filed under its own IP (what the loops over a table rely on). */
  predicate Indexed(t: DeviceTable) {
    forall k :: 0 <= k < |t.order| ==> t.order[k] in t.byIp && t.byIp[t.order[k]].ip == t.order[k]
  }

  lemma WellFormedIndexed(t: DeviceTable)
    requires WellFormed(t)
    ensures Indexed(t)
  {
    forall k | 0 <= k < |t.order| ensures t.order[k] in t.byIp {
      assert t.order[k] in t.order;
    }
  }

  function IpsOf(ds: seq<Device>): set<string> {
    set d | d in ds :: d.ip
  }

  /** No two devices of the list share an IP. */
  predicate DistinctIps(ds: seq<Device>) {
    forall i, j :: 0 <= i < j < |ds| ==> ds[i].ip != ds[j].ip
  }

  /** No later device of the scan has the IP of `scan[i]`. */
  predicate LastWithIp(scan: seq<Device>, i: int)
    requires 0 <= i < |scan|
  {
    forall j :: i < j < |scan| ==> scan[j].ip != scan[i].ip
  }

  /** Every device that is the last of the scan with its IP is the table's entry for that IP. */
  predicate LastWins(scan: seq<Device>, t: DeviceTable) {
    forall i :: 0 <= i < |scan| && LastWithIp(scan, i) ==> scan[i].ip in t.byIp && t.byIp[scan[i].ip] == scan[i]
  }

  /** `t[d['ip']] = d`: overwrite in place, or append a new key at the end. */
  function Insert(t: DeviceTable, d: Device): DeviceTable {
    DeviceTable(if d.ip in t.byIp then t.order else t.order + [d.ip], t.byIp[d.ip := d])
  }

  /** Inserting keeps a table well formed. */
  lemma InsertWellFormed(t: DeviceTable, d: Device)
    requires WellFormed(t)
    ensures WellFormed(Insert(t, d))
  {
    if d.ip !in t.byIp {
      var order := t.order + [d.ip];
      forall i, j | 0 <= i < j < |order| ensures order[i] != order[j] {
        if j == |order| - 1 {
          assert order[i] == t.order[i];
          assert t.order[i] in t.byIp;
        } else {
          assert order[i] == t.order[i] && order[j] == t.order[j];
        }
      }
    }
  }

  /** Inserting the next device of a scan keeps the last device of each IP as its entry. */
  lemma InsertLastWins(init: seq<Device>, t: DeviceTable, d: Device)
    requires LastWins(init, t)
    ensures LastWins(init + [d], Insert(t, d))
  {
    var scan := init + [d];
    var t' := Insert(t, d);
    forall i | 0 <= i < |scan| && LastWithIp(scan, i)
      ensures scan[i].ip in t'.byIp && t'.byIp[scan[i].ip] == scan[i]
    {
      if i < |init| {
        assert scan[i] == init[i];
        assert scan[|scan| - 1] == d;
        assert LastWithIp(init, i) by {
          forall j | i < j < |init| ensures init[j].ip != init[i].ip {
            assert scan[j] == init[j];
          }
        }
      }
    }
  }

  lemma InsertKeys(init: seq<Device>, t: DeviceTable, d: Device)
    requires t.byIp.Keys == IpsOf(init)
    ensures Insert(t, d).byIp.Keys == IpsOf(init + [d])
  {
    assert IpsOf(init + [d]) == IpsOf(init) + {d.ip};
  }

  /** Inserting the last device of a scan keeps the three properties of the index of the others. */
  lemma IndexStep(scan: seq<Device>, t: DeviceTable)
    requires scan != []
    requires WellFormed(t) && t.byIp.Keys == IpsOf(scan[..|scan| - 1]) && LastWins(scan[..|scan| - 1], t)
    ensures WellFormed(Insert(t, scan[|scan| - 1]))
    ensures Insert(t, scan[|scan| - 1]).byIp.Keys == IpsOf(scan)
    ensures LastWins(scan, Insert(t, scan[|scan| - 1]))
  {
    var init := scan[..|scan| - 1];
    var d := scan[|scan| - 1];
    assert init + [d] == scan;
    InsertWellFormed(t, d);
    InsertKeys(init, t, d);
    InsertLastWins(init, t, d);
  }

  /**
   * `{device['ip']: device for device in scan}`: one entry per IP of the
   * scan; when an IP is reported twice the later record wins but the key
   * keeps the place of its first insertion.
   */
  function IndexByIp(scan: seq<Device>): (t: DeviceTable)
    ensures WellFormed(t)
    ensures t.byIp.Keys == IpsOf(scan)
    ensures LastWins(scan, t)
    decreases |scan|
  {
    if scan == [] then EmptyTable
    else
      var init := scan[..|scan| - 1];
      var d := scan[|scan| - 1];
      IndexStep(scan, IndexByIp(init));
      Insert(IndexByIp(init), d)
  }

  /** The entries in key order, as `.values()` or `.items()` yields them. */
  function ValuesOf(order: seq<string>, byIp: map<string, Device>): seq<Device>
    decreases |order|
  {
    if order == [] then []
    else ValuesOf(order[..|order| - 1], byIp)
         + (if order[|order| - 1] in byIp then [byIp[order[|order| - 1]]] else [])
  }

  function Values(t: DeviceTable): seq<Device> {
    ValuesOf(t.order, t.byIp)
  }

  lemma {:induction false} ValuesOfPointwise(order: seq<string>, byIp: map<string, Device>)
    requires forall ip :: ip in order ==> ip in byIp
    ensures |ValuesOf(order, byIp)| == |order|
    ensures forall k :: 0 <= k < |order| ==> ValuesOf(order, byIp)[k] == byIp[order[k]]
    decreases |order|
  {
    if order != [] {
      var init := order[..|order| - 1];
      assert forall ip :: ip in init ==> ip in order;
      ValuesOfPointwise(init, byIp);
    }
  }

  /** Listing one more key appends its entry. */
  lemma ValuesOfStep(order: seq<string>, byIp: map<string, Device>, i: int)
    requires 0 <= i < |order| && order[i] in byIp
    ensures ValuesOf(order[..i + 1], byIp) == ValuesOf(order[..i], byIp) + [byIp[order[i]]]
  {
    assert order[..i + 1][..i] == order[..i];
  }

  /**
   * The values of a well-formed table are its entries, each once, in key
   * order: a device is listed exactly when it is the entry for its IP.
   */
  lemma ValuesOfTable(t: DeviceTable)
    requires WellFormed(t)
    ensures |Values(t)| == |t.order|
    ensures forall k :: 0 <= k < |t.order| ==> Values(t)[k] == t.byIp[t.order[k]]
    ensures forall d :: d in Values(t) <==> d.ip in t.byIp && t.byIp[d.ip] == d
    ensures DistinctIps(Values(t))
    ensures IpsOf(Values(t)) == t.byIp.Keys
  {
    ValuesOfPointwise(t.order, t.byIp);
    ValuesAreEntries(t);
    ValuesDistinct(t);
    ValuesCoverKeys(t);
  }

  lemma ValuesAreEntries(t: DeviceTable)
    requires WellFormed(t)
    requires |Values(t)| == |t.order|
    requires forall k :: 0 <= k < |t.order| ==> Values(t)[k] == t.byIp[t.order[k]]
    ensures forall d :: d in Values(t) <==> d.ip in t.byIp && t.byIp[d.ip] == d
  {
    var vs := Values(t);
    forall d ensures d in vs <==> d.ip in t.byIp && t.byIp[d.ip] == d {
      if d.ip in t.byIp && t.byIp[d.ip] == d {
        var k :| 0 <= k < |t.order| && t.order[k] == d.ip;
        assert vs[k] == d;
      }
    }
  }

  lemma ValuesDistinct(t: DeviceTable)
    requires WellFormed(t)
    requires |Values(t)| == |t.order|
    requires forall k :: 0 <= k < |t.order| ==> Values(t)[k] == t.byIp[t.order[k]]
    ensures DistinctIps(Values(t))
  {
    var vs := Values(t);
    forall i, j | 0 <= i < j < |vs| ensures vs[i].ip != vs[j].ip {
      assert t.order[i] in t.order && t.order[j] in t.order;
      assert vs[i].ip == t.order[i] && vs[j].ip == t.order[j];
    }
  }

  lemma ValuesCoverKeys(t: DeviceTable)
    requires WellFormed(t)
    requires |Values(t)| == |t.order|
    requires forall k :: 0 <= k < |t.order| ==> Values(t)[k] == t.byIp[t.order[k]]
    ensures IpsOf(Values(t)) == t.byIp.Keys
  {
    var vs := Values(t);
    forall ip | ip in t.byIp ensures ip in IpsOf(vs) {
      var k :| 0 <= k < |t.order| && t.order[k] == ip;
      assert vs[k].ip == ip;
    }
    forall ip | ip in IpsOf(vs) ensures ip in t.byIp {
      var d :| d in vs && d.ip == ip;
      var k :| 0 <= k < |vs| && vs[k] == d;
      assert t.order[k] in t.order;
    }
  }

  /** `[d for d in ds if d['ip'] not in m]`: the devices whose IP is not a key of `m`, in their order. */
  function Absent(ds: seq<Device>, m: map<string, Device>): seq<Device>
    decreases |ds|
  {
    if ds == [] then []
    else Absent(ds[..|ds| - 1], m) + (if ds[|ds| - 1].ip !in m then [ds[|ds| - 1]] else [])
  }

  /** The port numbers of the device differ from those of the record filed under its IP. */
  predicate PortsChanged(before: Device, after: Device) {
    PortNumbers(before.ports) != PortNumbers(after.ports)
  }

  /** The devices already in `known` whose set of port numbers changed, in their order. */
  function PortChanged(ds: seq<Device>, known: map<string, Device>): seq<Device>
    decreases |ds|
  {
    if ds == [] then []
    else
      var d := ds[|ds| - 1];
      PortChanged(ds[..|ds| - 1], known) + (if d.ip in known && PortsChanged(known[d.ip], d) then [d] else [])
  }

  /** Filtering one more device appends it when its IP is not a key. */
  lemma AbsentSnoc(ds: seq<Device>, d: Device, m: map<string, Device>)
    ensures Absent(ds + [d], m) == Absent(ds, m) + (if d.ip !in m then [d] else [])
  {
    assert (ds + [d])[..|ds|] == ds;
  }

  /** Filtering one more device appends it when it is known and its port numbers changed. */
  lemma PortChangedSnoc(ds: seq<Device>, d: Device, known: map<string, Device>)
    ensures PortChanged(ds + [d], known) ==
      PortChanged(ds, known) + (if d.ip in known && PortsChanged(known[d.ip], d) then [d] else [])
  {
    assert (ds + [d])[..|ds|] == ds;
  }

  lemma {:induction false} AbsentMembers(ds: seq<Device>, m: map<string, Device>)
    ensures forall d :: d in Absent(ds, m) <==> d in ds && d.ip !in m
    ensures DistinctIps(ds) ==> DistinctIps(Absent(ds, m))
    decreases |ds|
  {
    if ds != [] {
      var init := ds[..|ds| - 1];
      assert ds == init + [ds[|ds| - 1]];
      AbsentMembers(init, m);
      if DistinctIps(ds) {
        assert DistinctIps(init);
        forall d | d in Absent(init, m) ensures d.ip != ds[|ds| - 1].ip {
          var i :| 0 <= i < |init| && init[i] == d;
          assert ds[i] == d;
        }
      }
    }
  }

  lemma {:induction false} PortChangedMembers(ds: seq<Device>, known: map<string, Device>)
    ensures forall d :: d in PortChanged(ds, known) <==> d in ds && d.ip in known && PortsChanged(known[d.ip], d)
    ensures DistinctIps(ds) ==> DistinctIps(PortChanged(ds, known))
    decreases |ds|
  {
    if ds != [] {
      var init := ds[..|ds| - 1];
      assert ds == init + [ds[|ds| - 1]];
      PortChangedMembers(init, known);
      if DistinctIps(ds) {
        assert DistinctIps(init);
        forall d | d in PortChanged(init, known) ensures d.ip != ds[|ds| - 1].ip {
          var i :| 0 <= i < |init| && init[i] == d;
          assert ds[i] == d;
        }
      }
    }
  }

  lemma {:induction false} AbsentFromEmpty(ds: seq<Device>)
    ensures Absent(ds, map[]) == ds
    decreases |ds|
  {
    if ds != [] {
      AbsentFromEmpty(ds[..|ds| - 1]);
    }
  }

  lemma {:induction false} NoneChangedAgainstEmpty(ds: seq<Device>)
    ensures PortChanged(ds, map[]) == []
    decreases |ds|
  {
    if ds != [] {
      NoneChangedAgainstEmpty(ds[..|ds| - 1]);
    }
  }

  /** The three lists `get_network_changes` returns. */
  datatype ChangeSet = ChangeSet(arrived: seq<Device>, departed: seq<Device>, portChanged: seq<Device>)

  /**
   * Compare the previous table with the new one: the new table's devices
   * under an unknown IP, the previous table's devices whose IP is gone, and
   * the new table's devices whose port numbers differ from the previous
   * record under the same IP.
   */
  function Diff(known: DeviceTable, current: DeviceTable): ChangeSet {
    ChangeSet(Absent(Values(current), known.byIp),
              Absent(Values(known), current.byIp),
              PortChanged(Values(current), known.byIp))
  }

  /**
   * The first loop of `get_network_changes`: walk the new table in key
   * order; an unknown IP is a new device, a known one whose port numbers
   * differ is a changed device.
   */
  method ArrivedAndChanged(current: DeviceTable, known: DeviceTable) returns (arrived: seq<Device>, changed: seq<Device>)
    requires Indexed(current)
    ensures arrived == Diff(known, current).arrived
    ensures changed == Diff(known, current).portChanged
  {
    arrived, changed := [], [];
    var i := 0;
    while i < |current.order|
      invariant 0 <= i <= |current.order|
      invariant arrived == Absent(ValuesOf(current.order[..i], current.byIp), known.byIp)
      invariant changed == PortChanged(ValuesOf(current.order[..i], current.byIp), known.byIp)
    {
      var ip := current.order[i];
      var device := current.byIp[ip];
      ScanStep(current, known, i);
      if ip !in known.byIp {
        arrived := arrived + [device];
      } else {
        var oldPorts := PortNumbers(known.byIp[ip].ports);
        var newPorts := PortNumbers(device.ports);
        if oldPorts != newPorts {
          changed := changed + [device];
        }
      }
      i := i + 1;
    }
    assert current.order[..i] == current.order;
  }

  /** One more key of the new table: its device joins the new or the changed devices, or neither. */
  lemma ScanStep(current: DeviceTable, known: DeviceTable, i: int)
    requires Indexed(current) && 0 <= i < |current.order|
    ensures current.order[i] in current.byIp
    ensures
      var ip := current.order[i];
      var device := current.byIp[ip];
      && Absent(ValuesOf(current.order[..i + 1], current.byIp), known.byIp) ==
           Absent(ValuesOf(current.order[..i], current.byIp), known.byIp) + (if ip !in known.byIp then [device] else [])
      && PortChanged(ValuesOf(current.order[..i + 1], current.byIp), known.byIp) ==
           PortChanged(ValuesOf(current.order[..i], current.byIp), known.byIp)
           + (if ip in known.byIp && PortNumbers(known.byIp[ip].ports) != PortNumbers(device.ports) then [device] else [])
  {
    var ip := current.order[i];
    var device := current.byIp[ip];
    assert device.ip == ip;
    var seen := ValuesOf(current.order[..i], current.byIp);
    ValuesOfStep(current.order, current.byIp, i);
    AbsentSnoc(seen, device, known.byIp);
    PortChangedSnoc(seen, device, known.byIp);
  }

  /** The second loop of `get_network_changes`: the known devices whose IP the new table lacks. */
  method Departed(known: DeviceTable, current: DeviceTable) returns (departed: seq<Device>)
    requires Indexed(known)
    ensures departed == Diff(known, current).departed
  {
    departed := [];
    var j := 0;
    while j < |known.order|
      invariant 0 <= j <= |known.order|
      invariant departed == Absent(ValuesOf(known.order[..j], known.byIp), current.byIp)
    {
      var ip := known.order[j];
      ValuesOfStep(known.order, known.byIp, j);
      AbsentSnoc(ValuesOf(known.order[..j], known.byIp), known.byIp[ip], current.byIp);
      if ip !in current.byIp {
        departed := departed + [known.byIp[ip]];
      }
      j := j + 1;
    }
    assert known.order[..j] == known.order;
  }

  /**
   * Each list holds exactly the records it should: arrivals and port
   * changes are current records, departures are previous ones.
   */
  lemma DiffClassifies(known: DeviceTable, current: DeviceTable)
    requires WellFormed(known) && WellFormed(current)
    ensures forall d :: d in Diff(known, current).arrived <==>
      d.ip in current.byIp && current.byIp[d.ip] == d && d.ip !in known.byIp
    ensures forall d :: d in Diff(known, current).departed <==>
      d.ip in known.byIp && known.byIp[d.ip] == d && d.ip !in current.byIp
    ensures forall d :: d in Diff(known, current).portChanged <==>
      d.ip in current.byIp && current.byIp[d.ip] == d && d.ip in known.byIp && PortsChanged(known.byIp[d.ip], d)
    ensures DistinctIps(Diff(known, current).arrived)
    ensures DistinctIps(Diff(known, current).departed)
    ensures DistinctIps(Diff(known, current).portChanged)
  {
    ValuesOfTable(known);
    ValuesOfTable(current);
    AbsentMembers(Values(current), known.byIp);
    AbsentMembers(Values(known), current.byIp);
    PortChangedMembers(Values(current), known.byIp);
  }

  /**
   * On IPs: arrivals are the new IPs, departures the vanished ones, port
   * changes the kept IPs whose port numbers differ; no IP is in two lists.
   */
  lemma DiffPartitions(known: DeviceTable, current: DeviceTable)
    requires WellFormed(known) && WellFormed(current)
    ensures IpsOf(Diff(known, current).arrived) == current.byIp.Keys - known.byIp.Keys
    ensures IpsOf(Diff(known, current).departed) == known.byIp.Keys - current.byIp.Keys
    ensures IpsOf(Diff(known, current).portChanged) ==
      set ip | ip in current.byIp && ip in known.byIp && PortsChanged(known.byIp[ip], current.byIp[ip])
    ensures IpsOf(Diff(known, current).arrived) !! IpsOf(Diff(known, current).departed)
    ensures IpsOf(Diff(known, current).arrived) !! IpsOf(Diff(known, current).portChanged)
    ensures IpsOf(Diff(known, current).departed) !! IpsOf(Diff(known, current).portChanged)
  {
    DiffClassifies(known, current);
    var c := Diff(known, current);
    forall ip | ip in current.byIp && ip !in known.byIp ensures ip in IpsOf(c.arrived) {
      assert current.byIp[ip] in c.arrived;
    }
    forall ip | ip in known.byIp && ip !in current.byIp ensures ip in IpsOf(c.departed) {
      assert known.byIp[ip] in c.departed;
    }
    forall ip | ip in current.byIp && ip in known.byIp && PortsChanged(known.byIp[ip], current.byIp[ip])
      ensures ip in IpsOf(c.portChanged)
    {
      assert current.byIp[ip] in c.portChanged;
    }
  }

  /** Comparing a table with itself reports nothing. */
  lemma DiffSelf(t: DeviceTable)
    requires WellFormed(t)
    ensures Diff(t, t) == ChangeSet([], [], [])
  {
    ValuesOfTable(t);
    AbsentAllKnown(Values(t), t.byIp);
    PortChangedNoneChanged(Values(t), t.byIp);
  }

  lemma {:induction false} AbsentAllKnown(ds: seq<Device>, m: map<string, Device>)
    requires forall i :: 0 <= i < |ds| ==> ds[i].ip in m
    ensures Absent(ds, m) == []
    decreases |ds|
  {
    if ds != [] {
      AbsentAllKnown(ds[..|ds| - 1], m);
    }
  }

  lemma {:induction false} PortChangedNoneChanged(ds: seq<Device>, m: map<string, Device>)
    requires forall i :: 0 <= i < |ds| ==> ds[i].ip in m && m[ds[i].ip] == ds[i]
    ensures PortChanged(ds, m) == []
    decreases |ds|
  {
    if ds != [] {
      PortChangedNoneChanged(ds[..|ds| - 1], m);
    }
  }

  /** The first scan reports every device as new. */
  lemma DiffFromEmpty(current: DeviceTable)
    ensures Diff(EmptyTable, current) == ChangeSet(Values(current), [], [])
  {
    AbsentFromEmpty(Values(current));
    NoneChangedAgainstEmpty(Values(current));
  }

  /** An empty scan (also what a failed scan returns) reports every known device as disconnected. */
  lemma DiffToEmptyScan(known: DeviceTable)
    ensures Diff(known, IndexByIp([])) == ChangeSet([], Values(known), [])
  {
    AbsentFromEmpty(Values(known));
  }

  /**
   * A host seen again at the same IP with port 22 closed and port 80 still
   * open is reported only as changed, with its new record.
   */
  lemma ClosedPortScenario(before: Device, after: Device)
    requires before.ip == after.ip
    requires PortNumbers(before.ports) == {22, 80} && PortNumbers(after.ports) == {80}
    ensures Diff(IndexByIp([before]), IndexByIp([after])) == ChangeSet([], [], [after])
  {
    SingleScan(before);
    SingleScan(after);
    var known := IndexByIp([before]);
    var current := IndexByIp([after]);
    assert 22 in PortNumbers(before.ports) && 22 !in PortNumbers(after.ports);
    assert PortsChanged(known.byIp[after.ip], after);
    assert [after][..0] == [] && [before][..0] == [];
    assert PortChanged([after], known.byIp) == [after];
    assert Absent([after], known.byIp) == [];
    assert Absent([before], current.byIp) == [];
  }

  /** A one-device scan gives a one-entry table. */
  lemma SingleScan(d: Device)
    ensures IndexByIp([d]) == DeviceTable([d.ip], map[d.ip := d])
    ensures Values(IndexByIp([d])) == [d]
  {
    assert [d][..0] == [];
    assert IndexByIp([d]) == Insert(EmptyTable, d);
    assert EmptyTable.order + [d.ip] == [d.ip];
    assert EmptyTable.byIp[d.ip := d] == map[d.ip := d];
    assert [d.ip][..0] == [];
    assert ValuesOf([d.ip], map[d.ip := d]) == ValuesOf([], map[d.ip := d]) + [d];
  }

  /** The IPs of a list of devices, in order. */
  function IpList(ds: seq<Device>): (ips: seq<string>)
    ensures |ips| == |ds| && forall k :: 0 <= k < |ds| ==> ips[k] == ds[k].ip
  {
    seq(|ds|, k requires 0 <= k < |ds| => ds[k].ip)
  }

  /** Each string of `xs` once, at the place of its first occurrence. */
  function FirstSeen(xs: seq<string>): seq<string>
    decreases |xs|
  {
    if xs == [] then []
    else
      var seen := FirstSeen(xs[..|xs| - 1]);
      if xs[|xs| - 1] in seen then seen else seen + [xs[|xs| - 1]]
  }

  /**
   * The keys of the table built from a scan are the scanned IPs, each at the
   * place where it first appeared, even when a later record replaced its value.
   */
  lemma {:induction false} IndexKeyOrder(scan: seq<Device>)
    ensures IndexByIp(scan).order == FirstSeen(IpList(scan))
    decreases |scan|
  {
    if scan != [] {
      var init := scan[..|scan| - 1];
      assert IpList(scan)[..|scan| - 1] == IpList(init);
      IndexKeyOrder(init);
    }
  }

  /** A host reported again after another keeps its first place, with its later record. */
  lemma RepeatedIpScenario(a: Device, b: Device, a2: Device)
    requires a.ip == a2.ip && a.ip != b.ip
    ensures Values(IndexByIp([a, b, a2])) == [a2, b]
  {
    TwoDeviceScan(a, b);
    IndexSnoc([a, b], a2);
    assert [a, b] + [a2] == [a, b, a2];
    var m := map[a.ip := a, b.ip := b][a.ip := a2];
    assert IndexByIp([a, b, a2]) == DeviceTable([a.ip, b.ip], m);
    ValuesOfTwo(a.ip, b.ip, m);
  }

  lemma TwoDeviceScan(a: Device, b: Device)
    requires a.ip != b.ip
    ensures IndexByIp([a, b]) == DeviceTable([a.ip, b.ip], map[a.ip := a, b.ip := b])
  {
    var t1 := DeviceTable([a.ip], map[a.ip := a]);
    assert [a.ip] + [b.ip] == [a.ip, b.ip];
    assert Insert(t1, b) == DeviceTable([a.ip, b.ip], map[a.ip := a, b.ip := b]);
    SingleScan(a);
    IndexSnoc([a], b);
    assert [a] + [b] == [a, b];
  }

  lemma ValuesOfTwo(x: string, y: string, m: map<string, Device>)
    requires x in m && y in m
    ensures ValuesOf([x, y], m) == [m[x], m[y]]
  {
    assert [x, y][..1] == [x];
    assert [x][..0] == [];
    assert ValuesOf([x], m) == ValuesOf([], m) + [m[x]];
    assert ValuesOf([x, y], m) == ValuesOf([x], m) + [m[y]];
  }

  lemma IndexSnoc(scan: seq<Device>, d: Device)
    ensures IndexByIp(scan + [d]) == Insert(IndexByIp(scan), d)
  {
    assert (scan + [d])[..|scan|] == scan;
  }

  /** A scan without repeated IPs is kept as it is: the table's values are the scan, in order. */
  lemma {:induction false} IndexKeepsDistinctScan(scan: seq<Device>)
    requires DistinctIps(scan)
    ensures Values(IndexByIp(scan)) == scan
    decreases |scan|
  {
    if scan != [] {
      var init := scan[..|scan| - 1];
      var d := scan[|scan| - 1];
      assert scan == init + [d];
      DistinctSplit(scan);
      IndexKeepsDistinctScan(init);
      var t := IndexByIp(init);
      assert d.ip !in t.byIp;
      assert IndexByIp(scan) == Insert(t, d);
      ValuesInsertNew(t, d);
    }
  }

  /** Without repeated IPs, the scan before the last device has distinct IPs, none of them the last device's. */
  lemma DistinctSplit(scan: seq<Device>)
    requires scan != [] && DistinctIps(scan)
    ensures DistinctIps(scan[..|scan| - 1])
    ensures scan[|scan| - 1].ip !in IpsOf(scan[..|scan| - 1])
  {
  }

  /** A new key goes to the end of the values. */
  lemma ValuesInsertNew(t: DeviceTable, d: Device)
    requires WellFormed(t) && d.ip !in t.byIp
    ensures Values(Insert(t, d)) == Values(t) + [d]
  {
    var order' := t.order + [d.ip];
    assert order'[..|order'| - 1] == t.order;
    ValuesOfUnchanged(t.order, t.byIp, d);
  }

  /** Adding an entry under a key not among `order` does not change the values listed for `order`. */
  lemma {:induction false} ValuesOfUnchanged(order: seq<string>, byIp: map<string, Device>, d: Device)
    requires d.ip !in order
    ensures ValuesOf(order, byIp[d.ip := d]) == ValuesOf(order, byIp)
    decreases |order|
  {
    if order != [] {
      ValuesOfUnchanged(order[..|order| - 1], byIp, d);
    }
  }
}
