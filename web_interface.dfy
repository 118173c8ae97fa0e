/**
 * The dashboard's state and JSON routes (`WebInterface`): a most-recent-first
 * event log capped at 50 entries, and the bodies of `/api/events` and
 * `/api/devices`, which slice a page out of the log or out of the known
 * devices sorted newest first. The HTTP layer is not modelled: a route is a
 * method from its query arguments to its JSON payload, or to `None` when
 * `int()` rejects an argument (Flask then answers with a server error).
 */
module Web {
  import opened Wrappers
  import opened Text
  import opened Risk
  import opened Devices
  import opened Changes
  import opened Monitor

  /** `{'type': ..., 'device': ..., 'risk_level': ..., 'timestamp': ...}`. */
  datatype Event = Event(kind: string, device: Device, risk: Level, timestamp: string)

  /** `deque(maxlen=50)`. */
  const MaxEvents: nat := 50

  function Min(a: int, b: int): int {
    if a <= b then a else b
  }

  // ---------------------------------------------------------------------
  // The bounded event log
  // ---------------------------------------------------------------------

  /** `appendleft` on a deque with `maxlen=50`: the new event in front, the oldest dropped when full. */
  function PushFront(log: seq<Event>, e: Event): (r: seq<Event>)
    ensures |r| == Min(|log| + 1, MaxEvents)
    ensures r[0] == e
    ensures forall i :: 1 <= i < |r| ==> r[i] == log[i - 1]
  {
    var full := [e] + log;
    if |full| <= MaxEvents then full else full[..MaxEvents]
  }

  /** Adding to a full log keeps 50 events and drops exactly the oldest (last) one. */
  lemma PushFrontFull(log: seq<Event>, e: Event)
    requires |log| == MaxEvents
    ensures PushFront(log, e) == [e] + log[..MaxEvents - 1]
  {
  }

  /** Adding to a log with room keeps every event. */
  lemma PushFrontRoom(log: seq<Event>, e: Event)
    requires |log| < MaxEvents
    ensures PushFront(log, e) == [e] + log
  {
  }

  /** `add_event` once per event of `es`, in order. */
  function PushAll(log: seq<Event>, es: seq<Event>): seq<Event>
    decreases |es|
  {
    if es == [] then log else PushFront(PushAll(log, es[..|es| - 1]), es[|es| - 1])
  }

  lemma PushAllSnoc(log: seq<Event>, es: seq<Event>, e: Event)
    ensures PushAll(log, es + [e]) == PushFront(PushAll(log, es), e)
  {
    assert (es + [e])[..|es|] == es;
  }

  /** Pushing two batches one after the other is pushing their concatenation. */
  lemma {:induction false} PushAllConcat(log: seq<Event>, a: seq<Event>, b: seq<Event>)
    ensures PushAll(log, a + b) == PushAll(PushAll(log, a), b)
    decreases |b|
  {
    if b == [] {
      assert a + b == a;
    } else {
      var init := b[..|b| - 1];
      var e := b[|b| - 1];
      assert b == init + [e];
      assert a + b == (a + init) + [e];
      PushAllConcat(log, a, init);
      PushAllSnoc(log, a + init, e);
      PushAllSnoc(PushAll(log, a), init, e);
    }
  }

  function Reverse<T>(s: seq<T>): (r: seq<T>)
    ensures |r| == |s| && forall i :: 0 <= i < |s| ==> r[i] == s[|s| - 1 - i]
    decreases |s|
  {
    if s == [] then [] else [s[|s| - 1]] + Reverse(s[..|s| - 1])
  }

  /**
   * After a series of `add_event` calls the log holds the events just added,
   * newest first, followed by the older log, cut to the 50 most recent.
   */
  lemma {:induction false} PushAllKeepsNewest(log: seq<Event>, es: seq<Event>)
    requires |log| <= MaxEvents
    ensures PushAll(log, es) == (Reverse(es) + log)[..Min(|es| + |log|, MaxEvents)]
    decreases |es|
  {
    if es == [] {
      assert Reverse(es) + log == log;
    } else {
      var init := es[..|es| - 1];
      var e := es[|es| - 1];
      PushAllKeepsNewest(log, init);
      var prev := PushAll(log, init);
      var r := PushAll(log, es);
      var all := Reverse(es) + log;
      var n := Min(|es| + |log|, MaxEvents);
      assert Reverse(es) == [e] + Reverse(init);
      assert |r| == n;
      forall i | 0 <= i < n ensures r[i] == all[..n][i] {
        if i > 0 {
          assert r[i] == prev[i - 1];
          assert all[i] == (Reverse(init) + log)[i - 1];
        }
      }
    }
  }

  // ---------------------------------------------------------------------
  // Query arguments and Python slices
  // ---------------------------------------------------------------------

  /** A slice bound as Python resolves it: negative counts from the end, then clamped to [0, n]. */
  function SliceIndex(i: int, n: nat): (r: nat)
    ensures r <= n
    ensures 0 <= i <= n ==> r == i
    ensures i > n ==> r == n
    ensures i < 0 ==> r == if i + n < 0 then 0 else i + n
  {
    if i < 0 then (if i + n < 0 then 0 else i + n)
    else if i > n then n
    else i
  }

  /** `s[i:j]`. */
  function Slice<T>(s: seq<T>, i: int, j: int): seq<T> {
    var a := SliceIndex(i, |s|);
    var b := SliceIndex(j, |s|);
    if a < b then s[a..b] else []
  }

  /**
   * Python's slice on the cases the handlers meet: in-range bounds cut
   * exactly, a negative start counts from the end, an end past the length
   * is clamped, and a start at or past the end, or an end at or before
   * `-len(s)`, gives an empty list.
   */
  lemma SliceAsPython<T>(s: seq<T>, i: int, j: int)
    ensures 0 <= i <= j <= |s| ==> Slice(s, i, j) == s[i..j]
    ensures 0 < -i <= |s| && j >= |s| ==> Slice(s, i, j) == s[|s| + i..]
    ensures i == 0 && j >= 0 ==> Slice(s, i, j) == s[..Min(j, |s|)]
    ensures i >= |s| ==> Slice(s, i, j) == []
    ensures j <= -|s| ==> Slice(s, i, j) == []
    ensures |Slice(s, i, j)| <= |s|
  {
    if i == 0 && j >= 0 {
      assert s[0..Min(j, |s|)] == s[..Min(j, |s|)];
    }
  }

  /** `s[start_idx:end_idx]` with `start_idx = (page - 1) * limit` and `end_idx = start_idx + limit`. */
  function Page<T>(s: seq<T>, page: int, limit: int): seq<T> {
    Slice(s, (page - 1) * limit, (page - 1) * limit + limit)
  }

  /**
   * For page >= 1 and limit >= 0 the page is the stretch of `limit` items
   * starting at (page - 1) * limit, clipped to the end: never more than `limit`.
   */
  lemma PageClipped<T>(s: seq<T>, page: int, limit: int)
    requires page >= 1 && limit >= 0
    ensures (page - 1) * limit >= 0
    ensures Page(s, page, limit) ==
      s[Min((page - 1) * limit, |s|)..Min((page - 1) * limit + limit, |s|)]
    ensures |Page(s, page, limit)| <= limit
  {
    assert (page - 1) * limit >= 0 by { ProductNonNegative(page - 1, limit); }
  }

  lemma ProductNonNegative(a: int, b: int)
    requires a >= 0 && b >= 0
    ensures a * b >= 0
  {
  }

  /** Page 0 is always empty: its slice runs from `-limit` to 0. */
  lemma PageZeroEmpty<T>(s: seq<T>, limit: int)
    requires limit >= 0
    ensures Page(s, 0, limit) == []
  {
  }

  /** Pages 1 to `count` one after the other. */
  function Pages<T>(s: seq<T>, limit: int, count: nat): seq<T>
    decreases count
  {
    if count == 0 then [] else Pages(s, limit, count - 1) + Page(s, count, limit)
  }

  /**
   * For a fixed positive limit, consecutive pages follow each other without
   * gap or overlap: pages 1 to `count` together are the first
   * count * limit items, and enough pages cover the whole sequence.
   */
  lemma {:induction false} PagesArePrefix<T>(s: seq<T>, limit: int, count: nat)
    requires limit > 0
    ensures Pages(s, limit, count) == s[..Min(count * limit, |s|)]
    ensures count * limit >= |s| ==> Pages(s, limit, count) == s
    decreases count
  {
    if count > 0 {
      PagesArePrefix(s, limit, count - 1);
      PageClipped(s, count, limit);
      NextPageStart(count, limit);
      PrefixThenSlice(s, Min((count - 1) * limit, |s|), Min(count * limit, |s|));
    }
    if count * limit >= |s| {
      assert s[..Min(count * limit, |s|)] == s;
    }
  }

  lemma PrefixThenSlice<T>(s: seq<T>, a: int, b: int)
    requires 0 <= a <= b <= |s|
    ensures s[..a] + s[a..b] == s[..b]
  {
  }

  /** Page `count` starts where page `count - 1` ends. */
  lemma NextPageStart(count: int, limit: int)
    ensures (count - 1) * limit + limit == count * limit
  {
  }

  // ---------------------------------------------------------------------
  // Newest-first, stable ordering of the devices
  // ---------------------------------------------------------------------

  /** `b` has a timestamp no later than `a` (as strings). */
  predicate NotNewer(b: Device, a: Device) {
    !StrLt(a.timestamp, b.timestamp)
  }

  /** Newest first: no device is preceded by one with a smaller timestamp string. */
  predicate NewestFirst(ds: seq<Device>) {
    forall i, j :: 0 <= i < j < |ds| ==> NotNewer(ds[j], ds[i])
  }

  /** Put `d` after every device whose timestamp is not smaller, before the first smaller one. */
  function InsertByTime(sorted: seq<Device>, d: Device): seq<Device>
    decreases |sorted|
  {
    if sorted == [] then [d]
    else if StrLt(sorted[0].timestamp, d.timestamp) then [d] + sorted
    else [sorted[0]] + InsertByTime(sorted[1..], d)
  }

  /** `sorted(ds, key=timestamp, reverse=True)`, which keeps equal timestamps in their original order. */
  function SortNewestFirst(ds: seq<Device>): seq<Device>
    decreases |ds|
  {
    if ds == [] then [] else InsertByTime(SortNewestFirst(ds[..|ds| - 1]), ds[|ds| - 1])
  }

  /** The devices of `ds` stamped `stamp`, in their order. */
  function WithStamp(ds: seq<Device>, stamp: string): seq<Device>
    decreases |ds|
  {
    if ds == [] then []
    else WithStamp(ds[..|ds| - 1], stamp) + (if ds[|ds| - 1].timestamp == stamp then [ds[|ds| - 1]] else [])
  }

  lemma WithStampCons(d: Device, ds: seq<Device>, stamp: string)
    ensures WithStamp([d] + ds, stamp) == (if d.timestamp == stamp then [d] else []) + WithStamp(ds, stamp)
    decreases |ds|
  {
    if ds == [] {
      assert ([d] + ds)[..0] == [];
    } else {
      var init := ds[..|ds| - 1];
      assert ([d] + ds)[..|ds|] == [d] + init;
      WithStampCons(d, init, stamp);
    }
  }

  lemma {:induction false} InsertByTimeMultiset(sorted: seq<Device>, d: Device)
    ensures multiset(InsertByTime(sorted, d)) == multiset(sorted) + multiset{d}
    decreases |sorted|
  {
    if sorted != [] && !StrLt(sorted[0].timestamp, d.timestamp) {
      InsertByTimeMultiset(sorted[1..], d);
      assert sorted == [sorted[0]] + sorted[1..];
    }
  }

  lemma {:induction false} InsertByTimeSorted(sorted: seq<Device>, d: Device)
    requires NewestFirst(sorted)
    ensures NewestFirst(InsertByTime(sorted, d))
    decreases |sorted|
  {
    if sorted == [] {
    } else if StrLt(sorted[0].timestamp, d.timestamp) {
      PrependNewerSorted(sorted, d);
    } else {
      var rest := sorted[1..];
      NewestFirstTail(sorted);
      HeadNoOlder(sorted);
      InsertByTimeSorted(rest, d);
      InsertByTimeMultiset(rest, d);
      ConsHeadSorted(sorted[0], rest, InsertByTime(rest, d), d);
    }
  }

  lemma NewestFirstTail(sorted: seq<Device>)
    requires NewestFirst(sorted) && sorted != []
    ensures NewestFirst(sorted[1..])
  {
    var rest := sorted[1..];
    forall i, j | 0 <= i < j < |rest| ensures NotNewer(rest[j], rest[i]) {
      assert rest[i] == sorted[i + 1] && rest[j] == sorted[j + 1];
    }
  }

  /** The head of a newest-first list is no older than any device after it. */
  lemma HeadNoOlder(sorted: seq<Device>)
    requires NewestFirst(sorted) && sorted != []
    ensures forall k :: 0 <= k < |sorted| - 1 ==> NotNewer(sorted[1..][k], sorted[0])
  {
    var rest := sorted[1..];
    forall k | 0 <= k < |rest| ensures NotNewer(rest[k], sorted[0]) {
      assert rest[k] == sorted[k + 1];
    }
  }

  /** A device newer than the head of a newest-first list can go in front of it. */
  lemma PrependNewerSorted(sorted: seq<Device>, d: Device)
    requires NewestFirst(sorted) && sorted != [] && StrLt(sorted[0].timestamp, d.timestamp)
    ensures NewestFirst([d] + sorted)
  {
    var r := [d] + sorted;
    forall i, j | 0 <= i < j < |r| ensures NotNewer(r[j], r[i]) {
      if i == 0 {
        OlderThanHead(sorted, d, j - 1);
      } else {
        assert r[i] == sorted[i - 1] && r[j] == sorted[j - 1];
      }
    }
  }

  /** A head no older than `d` and than each device of `rest` stays in front of their newest-first merge. */
  lemma ConsHeadSorted(head: Device, rest: seq<Device>, inner: seq<Device>, d: Device)
    requires NewestFirst(inner) && multiset(inner) == multiset(rest) + multiset{d}
    requires forall k :: 0 <= k < |rest| ==> NotNewer(rest[k], head)
    requires NotNewer(d, head)
    ensures NewestFirst([head] + inner)
  {
    var r := [head] + inner;
    forall i, j | 0 <= i < j < |r| ensures NotNewer(r[j], r[i]) {
      if i == 0 {
        assert r[j] == inner[j - 1];
        assert r[j] in multiset(inner);
        if r[j] != d {
          assert r[j] in multiset(rest);
          var k :| 0 <= k < |rest| && rest[k] == r[j];
        }
      } else {
        assert r[i] == inner[i - 1] && r[j] == inner[j - 1];
      }
    }
  }

  lemma {:induction false} InsertByTimeStable(sorted: seq<Device>, d: Device, stamp: string)
    requires NewestFirst(sorted)
    ensures WithStamp(InsertByTime(sorted, d), stamp) ==
      WithStamp(sorted, stamp) + (if d.timestamp == stamp then [d] else [])
    decreases |sorted|
  {
    var tail := if d.timestamp == stamp then [d] else [];
    if sorted == [] {
      assert [d][..0] == [];
    } else if StrLt(sorted[0].timestamp, d.timestamp) {
      WithStampCons(d, sorted, stamp);
      if d.timestamp == stamp {
        NoneWithStampAfter(sorted, stamp);
      }
    } else {
      var rest := sorted[1..];
      assert sorted == [sorted[0]] + rest;
      NewestFirstTail(sorted);
      InsertByTimeStable(rest, d, stamp);
      WithStampConsAppend(sorted[0], rest, InsertByTime(rest, d), stamp, tail);
    }
  }

  /** Putting the same device in front of two lists keeps their stamped parts `tail` apart. */
  lemma WithStampConsAppend(x: Device, rest: seq<Device>, inner: seq<Device>, stamp: string, tail: seq<Device>)
    requires WithStamp(inner, stamp) == WithStamp(rest, stamp) + tail
    ensures WithStamp([x] + inner, stamp) == WithStamp([x] + rest, stamp) + tail
  {
    var head := if x.timestamp == stamp then [x] else [];
    calc {
      WithStamp([x] + inner, stamp);
      { WithStampCons(x, inner, stamp); }
      head + WithStamp(inner, stamp);
      head + (WithStamp(rest, stamp) + tail);
      (head + WithStamp(rest, stamp)) + tail;
      { WithStampCons(x, rest, stamp); }
      WithStamp([x] + rest, stamp) + tail;
    }
  }

  /** A device newer than the head of a newest-first list is newer than, or as new as, all of it. */
  lemma OlderThanHead(sorted: seq<Device>, d: Device, k: int)
    requires NewestFirst(sorted) && sorted != [] && StrLt(sorted[0].timestamp, d.timestamp)
    requires 0 <= k < |sorted|
    ensures NotNewer(sorted[k], d)
  {
    if k > 0 {
      assert NotNewer(sorted[k], sorted[0]);
    }
    StrLtTransitive(sorted[0].timestamp, d.timestamp, sorted[k].timestamp);
    StrLtAsymmetric(sorted[0].timestamp, d.timestamp);
  }

  /** In a newest-first list whose head is older than `stamp`, nothing carries `stamp`. */
  lemma {:induction false} NoneWithStampAfter(sorted: seq<Device>, stamp: string)
    requires NewestFirst(sorted)
    requires sorted != [] ==> StrLt(sorted[0].timestamp, stamp)
    ensures WithStamp(sorted, stamp) == []
    decreases |sorted|
  {
    if sorted != [] {
      var init := sorted[..|sorted| - 1];
      assert NewestFirst(init);
      NoneWithStampAfter(init, stamp);
      if |sorted| == 1 {
        StrLtIrreflexive(stamp);
      }
    }
  }

  /**
   * The sort is newest first, loses and adds no device, and keeps the
   * devices that share a timestamp in their original order (stability).
   */
  lemma {:induction false} SortNewestFirstSpec(ds: seq<Device>, stamp: string)
    ensures NewestFirst(SortNewestFirst(ds))
    ensures multiset(SortNewestFirst(ds)) == multiset(ds)
    ensures WithStamp(SortNewestFirst(ds), stamp) == WithStamp(ds, stamp)
  {
    SortNewestFirstSorted(ds);
    SortNewestFirstPermutes(ds);
    SortNewestFirstStable(ds, stamp);
  }

  lemma {:induction false} SortNewestFirstSorted(ds: seq<Device>)
    ensures NewestFirst(SortNewestFirst(ds))
    decreases |ds|
  {
    if ds != [] {
      SortNewestFirstSorted(ds[..|ds| - 1]);
      InsertByTimeSorted(SortNewestFirst(ds[..|ds| - 1]), ds[|ds| - 1]);
    }
  }

  lemma {:induction false} SortNewestFirstPermutes(ds: seq<Device>)
    ensures multiset(SortNewestFirst(ds)) == multiset(ds)
    decreases |ds|
  {
    if ds != [] {
      var init := ds[..|ds| - 1];
      var last := ds[|ds| - 1];
      assert ds == init + [last];
      assert multiset(ds) == multiset(init) + multiset{last};
      assert SortNewestFirst(ds) == InsertByTime(SortNewestFirst(init), last);
      SortNewestFirstPermutes(init);
      InsertByTimeMultiset(SortNewestFirst(init), last);
    }
  }

  lemma {:induction false} SortNewestFirstStable(ds: seq<Device>, stamp: string)
    ensures WithStamp(SortNewestFirst(ds), stamp) == WithStamp(ds, stamp)
    decreases |ds|
  {
    if ds != [] {
      var init := ds[..|ds| - 1];
      SortNewestFirstStable(init, stamp);
      SortNewestFirstSorted(init);
      InsertByTimeStable(SortNewestFirst(init), ds[|ds| - 1], stamp);
    }
  }

  // ---------------------------------------------------------------------
  // Responses
  // ---------------------------------------------------------------------

  /** `{'ip': ..., 'mac': ..., 'ports': [{'port', 'service', 'risk_level'}]}`: the timestamp is dropped. */
  datatype DeviceView = DeviceView(ip: string, mac: string, ports: seq<Port>)

  function View(d: Device): DeviceView {
    DeviceView(d.ip, d.mac, d.ports)
  }

  function Views(ds: seq<Device>): (vs: seq<DeviceView>)
    ensures |vs| == |ds| && forall i :: 0 <= i < |ds| ==> vs[i] == View(ds[i])
  {
    seq(|ds|, i requires 0 <= i < |ds| => View(ds[i]))
  }

  datatype EventsPage = EventsPage(events: seq<Event>, total: int)

  datatype DevicesPage = DevicesPage(devices: seq<DeviceView>, total: int)

  /** The `/api/events` payload for the given log and query arguments. */
  function EventsResponse(log: seq<Event>, pageArg: Option<string>, limitArg: Option<string>): (r: Option<EventsPage>)
    ensures r.Some? <==> IntOrDefault(pageArg, 1).Some? && IntOrDefault(limitArg, 10).Some?
    ensures r.Some? ==> r.value.total == |log|
  {
    match (IntOrDefault(pageArg, 1), IntOrDefault(limitArg, 10))
    case (Some(page), Some(limit)) => Some(EventsPage(Page(log, page, limit), |log|))
    case _ => None
  }

  /** The `/api/devices` payload for the given device table and query arguments. */
  function DevicesResponse(t: DeviceTable, pageArg: Option<string>, limitArg: Option<string>): (r: Option<DevicesPage>)
    ensures r.Some? <==> IntOrDefault(pageArg, 1).Some? && IntOrDefault(limitArg, 10).Some?
    ensures r.Some? ==> r.value.total == |t.byIp|
  {
    match (IntOrDefault(pageArg, 1), IntOrDefault(limitArg, 10))
    case (Some(page), Some(limit)) => Some(DevicesPage(Views(Page(SortNewestFirst(Values(t)), page, limit)), |t.byIp|))
    case _ => None
  }

  /**
   * Without query arguments, `/api/devices` shows the 10 newest devices
   * (fewer when there are fewer), projected, newest first.
   */
  lemma DefaultDevicesPage(t: DeviceTable)
    ensures DevicesResponse(t, None, None).Some?
    ensures DevicesResponse(t, None, None).value.devices ==
      Views(SortNewestFirst(Values(t))[..Min(10, |SortNewestFirst(Values(t))|)])
  {
    PageClipped(SortNewestFirst(Values(t)), 1, 10);
  }

  // ---------------------------------------------------------------------
  // The class
  // ---------------------------------------------------------------------

  class WebInterface {
    const networkMonitor: NetworkMonitor
    /** `events`: newest first. */
    var events: seq<Event>

    ghost predicate Valid()
      reads this
    {
      |events| <= MaxEvents
    }

    constructor (networkMonitor: NetworkMonitor)
      ensures Valid()
      ensures this.networkMonitor == networkMonitor && events == []
    {
      this.networkMonitor := networkMonitor;
      events := [];
    }

    /** `add_event`: put the event, stamped `timestamp`, at the front of the capped log. */
    method AddEvent(kind: string, device: Device, timestamp: string, risk: Level := Low)
      requires Valid()
      modifies this`events
      ensures Valid()
      ensures events == PushFront(old(events), Event(kind, device, risk, timestamp))
    {
      var event := Event(kind, device, risk, timestamp);
      if |events| == MaxEvents {
        events := [event] + events[..MaxEvents - 1];
      } else {
        events := [event] + events;
      }
    }

    /** `/api/events`: a page of the log and the log's length. */
    method GetEvents(pageArg: Option<string>, limitArg: Option<string>) returns (r: Option<EventsPage>)
      ensures r == EventsResponse(events, pageArg, limitArg)
    {
      var page := IntOrDefault(pageArg, 1);
      var limit := IntOrDefault(limitArg, 10);
      if page.None? || limit.None? {
        return None;
      }
      var startIdx := (page.value - 1) * limit.value;
      var endIdx := startIdx + limit.value;
      r := Some(EventsPage(Slice(events, startIdx, endIdx), |events|));
    }

    /** The projection loop of `/api/devices`: IP, MAC and ports of each device, in order. */
    static method Project(selected: seq<Device>) returns (devices: seq<DeviceView>)
      ensures devices == Views(selected)
    {
      devices := [];
      var i := 0;
      while i < |selected|
        invariant 0 <= i <= |selected|
        invariant |devices| == i && forall k :: 0 <= k < i ==> devices[k] == View(selected[k])
      {
        var device := selected[i];
        devices := devices + [DeviceView(device.ip, device.mac, device.ports)];
        i := i + 1;
      }
    }

    /** `/api/devices`: a page of the known devices, newest first, projected, and their number. */
    method GetDevices(pageArg: Option<string>, limitArg: Option<string>) returns (r: Option<DevicesPage>)
      ensures r == DevicesResponse(networkMonitor.knownDevices, pageArg, limitArg)
    {
      var page := IntOrDefault(pageArg, 1);
      var limit := IntOrDefault(limitArg, 10);
      if page.None? || limit.None? {
        return None;
      }
      var startIdx := (page.value - 1) * limit.value;
      var endIdx := startIdx + limit.value;
      var known := networkMonitor.knownDevices;
      var selected := Slice(SortNewestFirst(Values(known)), startIdx, endIdx);
      assert selected == Page(SortNewestFirst(Values(known)), page.value, limit.value);
      var devices := Project(selected);
      r := Some(DevicesPage(devices, |known.byIp|));
    }
  }
}
