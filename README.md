# BotRede network monitor in Dafny

BotRede watches the local /24 network, and this project models its core.
Each scan runs in these steps:

- The monitor (`NetworkMonitor`) picks the first non-loopback IPv4 address of the machine.
- It sweeps that address's /24 network with ARP.
- It probes every answering host with nmap for a fixed list of common ports.
- It gives each open port a risk tier (high, medium or low).
- It compares the resulting device table, keyed by IP, with the table from the previous scan. That yields three lists, in this order:
  - new devices;
  - disconnected devices;
  - devices whose set of open port numbers changed.

Each iteration of the bot's loop (`NetworkMonitorBot.monitor_network`) does two more things:

- It logs one event per device on the dashboard (`WebInterface`). The dashboard is a log capped at 50 events, newest first. It is served as pages together with a page of the known devices, newest first.
- Only after that, it has `DiscordNotifier` send one embed per device.

The monitor also keeps a 24-hour history of traffic samples per host. It flags two anomalies there:

- a traffic spike, against the mean and standard deviation of the last ten samples;
- a suspected port scan.

The model's form follows the source:

- `NetworkMonitor`, `WebInterface`, `DiscordNotifier` and `NetworkMonitorBot` are classes. Their methods update their fields in place:
  - the known-device table;
  - the traffic histories;
  - the event log;
  - the outbox of sent embeds.
- The computations those methods perform are pure functions, each with its properties proved as lemmas. These include:
  - interface choice;
  - nmap output parsing;
  - risk assessment;
  - the change comparison;
  - window statistics;
  - paging and sorting;
  - embed layout.
- The loops of the source are methods with loop invariants, each proved equal to the function that specifies it.

Inputs that the source takes from the outside world are parameters of the model:

- the interface list (`netifaces`);
- the outcome of the ARP sweep: the answering hosts, or `None` when it raises;
- each host's nmap exit code and output;
- the clock readings;
- the environment variables;
- the HTTP query arguments.

Modules, one per file:

- `Wrappers` holds `Option`.
- `Text` models the Python string operations the core uses:
  - `split`;
  - `str.split()`;
  - `str.lower()`;
  - `int()` and `str(int)`;
  - string `<`.
- `Risk` models `assess_port_risk`.
- `Devices` models the port and device records and the per-device risk loop.
- `Scanning` models `get_network_interface`, the pure parts of `scan_network` and `scan_ports_async`.
- `Traffic` models `analyze_traffic` and `detect_anomalies` on values.
- `Changes` models the device table and the comparison in `get_network_changes`.
- `Monitor` holds the `NetworkMonitor` class.
- `Web` models `WebInterface`.
- `Discord` models `DiscordNotifier`.
- `Bot` models `NetworkMonitorBot`.

A failed scan is not told apart from an empty network. `scan_network` returns an empty list when the sweep raises, and `get_network_changes` replaces the device table with that list unconditionally. Every known device is then reported as disconnected (`Changes.DiffToEmptyScan`).

## Model

| member | source | states |
|---|---|---|
| Risk.AssessPortRisk | network_monitor.py:188-198 | High exactly when the port is 21, 22, 23 or 3389 or the lower-cased service is telnet, ftp or rpc; Medium exactly when not high and the port is 80, 443, 8080 or 8443; Low in every other case |
| Risk.AssessIgnoresServiceCase | network_monitor.py:194 | the tier of a port does not depend on the letter case of its service name |
| Risk.HighRiskPortWins | network_monitor.py:194-195 | a high-risk port number is High whatever service nmap names |
| Risk.AssessExamples | network_monitor.py:188-198 | 23/ssh is High, 8080/http-proxy Medium, 9999/custom Low, 80/FTP High (the service test wins over the medium port) |
| Risk.LowerIdempotent | network_monitor.py:194 | lower-casing a service name a second time changes nothing |
| Devices.DeviceRiskCases | main.py:34-40 | a device's tier is High iff some port is high, Medium iff none is high and some is medium, Low iff neither (also with no ports) |
| Devices.DeviceRiskIsMaximum | main.py:34-40 | the device's tier is at least every port's tier and, when it has ports, is the tier of one of them |
| Devices.DeviceRiskIgnoresOrder | discord_notifier.py:141-147 | reordering a device's ports does not change its tier |
| Devices.AggregateRisk | main.py:34-40 | the loop that starts at low, takes medium, and stops at the first high computes exactly the device's tier |
| Scanning.GetNetworkInterface | network_monitor.py:40-52 | the loop over interfaces and their IPv4 addresses returns the first (interface, address) pair, in listing order, whose address does not start with "127.", and nothing when there is none |
| Scanning.FirstNonLoopbackSearch | network_monitor.py:43-49 | the selected pair is a candidate, every earlier candidate is loopback, and nothing is selected exactly when every candidate is loopback |
| Scanning.NetworkDropsLastComponent | network_monitor.py:63 | the swept network is the address without its last dot-separated component, followed by ".0/24" |
| Scanning.NetworkOfDotless | network_monitor.py:63 | an address without dots gives the network ".0/24" |
| Scanning.NetworkExample | network_monitor.py:63 | 192.168.1.37 gives 192.168.1.0/24 |
| Scanning.ParsePortLine | network_monitor.py:110-117 | a parsed port carries the tier assess_port_risk gives its number and service |
| Scanning.ParseLinesSpec | network_monitor.py:108-117 | parsing succeeds exactly when every line containing "open" and "tcp" parses, and then yields one port per such line, in line order |
| Scanning.ParseFailurePersists | network_monitor.py:108-123 | a line that fails to parse makes the whole scan of the host yield no ports, whatever follows it |
| Scanning.ScanPortsSound | network_monitor.py:105-123 | a non-zero nmap exit code yields no ports; every reported port has the tier assess_port_risk gives it; when all port lines parse, the ports are their parses in order |
| Scanning.ParseNmapOutput | network_monitor.py:105-119 | the parsing loop, with its early exit on a malformed line, returns exactly the specified ports |
| Scanning.ParseNmapRow | network_monitor.py:109-117 | a row "<port>/tcp open <service>" is a port line and parses back to that port number, that service and its tier |
| Scanning.ParseNmapRowWithoutService | network_monitor.py:110-116 | a row "<port>/tcp open" with no third field is a port line and parses to that port number, the service "unknown" and its tier |
| Scanning.ScannedDevicesSpec | network_monitor.py:54-86 | no devices without a usable interface or when the sweep raises; otherwise one device per answering host in reply order with its IP, MAC and clock reading, whose ports are the result of that host's own nmap run when common-port scanning is on and none when it is off, every port with its assessed tier |
| Text.IntToStringRoundTrip | network_monitor.py:111 | int() reads back every port number nmap writes in decimal |
| Text.JoinSplit | network_monitor.py:63 | joining the pieces of a split with the separator gives back the string |
| Traffic.PruneMembers | network_monitor.py:138-139 | pruning keeps exactly the samples strictly newer than the cutoff |
| Traffic.RecordKeepsNewSample | network_monitor.py:135-139 | recording keeps the pruned old history followed by the new sample, which is last |
| Traffic.RecordWithinWindow | network_monitor.py:137-139 | after recording at time T no retained sample is 24 hours or more older than T |
| Traffic.RecordWindowed | network_monitor.py:135-139 | a recorded history is non-empty and lies within 24 hours of its last sample |
| Traffic.RecordChronological | network_monitor.py:135-139 | recording a sample no older than the history keeps the history in time order |
| Traffic.Recent | network_monitor.py:148 | the window is the last min(10, n) samples |
| Traffic.VarianceNonNegative | network_monitor.py:156 | the sample variance of the window is never negative |
| Traffic.Assemble | network_monitor.py:160-176 | at most two anomalies, all High, with a spike exactly when the spike test holds and a port scan exactly when the count test holds |
| Traffic.DetectAnomalies | network_monitor.py:143-186 | no statistics exactly when the history is empty, then no anomalies; at most two anomalies, all of severity High |
| Traffic.DetectAnomaliesTests | network_monitor.py:160-176 | a spike is reported iff the last count exceeds the spike bound, a port scan iff the number of window counts above twice the mean reaches the threshold |
| Traffic.SpikeTestMatchesStdev | network_monitor.py:156-162 | the squared spike test agrees with "current > mean + stdev * k" for the standard deviation |
| Traffic.SingleSampleNoSpike | network_monitor.py:156-176 | with one sample the variance is 0 and no spike fires; with a scan threshold above 1 no anomaly fires |
| Traffic.SingleSampleWindow | network_monitor.py:148-156 | a one-sample history has a window of that one count, whose mean is the count and whose variance is 0 |
| Traffic.FewExceedTwiceMean | network_monitor.py:170 | fewer than half of any non-negative window exceed twice its mean |
| Traffic.PortScanNeverFires | network_monitor.py:169-176 | with non-negative counts, a window of at most 10 samples and a threshold of at least 5 (the default), the port-scan anomaly can never be reported |
| Traffic.SpikeExample | network_monitor.py:143-167 | nine samples of 10 packets then one of 100 give a spike under the default multiplier 2.0 |
| Changes.IndexByIp | network_monitor.py:202 | the dict built from a scan is well formed, has exactly the scanned IPs as keys, and each key holds the last device scanned with that IP |
| Changes.IndexKeepsDistinctScan | network_monitor.py:202 | a scan without repeated IPs is kept as it is, in order |
| Changes.IndexKeyOrder | network_monitor.py:202 | the keys of the dict are the scanned IPs, each at the place of its first appearance, even when a later record replaced the value |
| Changes.RepeatedIpScenario | network_monitor.py:202 | a host reported, then another, then the first again, gives the values [later record of the first, the other] |
| Changes.ValuesOfTable | network_monitor.py:209 | a table's values are its entries in key order, each filed under its own IP, without repeated IPs |
| Changes.AbsentMembers | network_monitor.py:209-211 | the devices kept are exactly those whose IP is not known |
| Changes.PortChangedMembers | network_monitor.py:212-217 | the devices kept are exactly the known ones whose set of port numbers differs from the known record's |
| Changes.ArrivedAndChanged | network_monitor.py:209-217 | the first loop returns the new devices and the changed devices the comparison specifies, in dict order |
| Changes.Departed | network_monitor.py:219-222 | the second loop returns the known records whose IP is missing from the new scan, in dict order |
| Changes.DiffClassifies | network_monitor.py:208-222 | new iff scanned and unknown; disconnected iff known and not scanned; changed iff scanned, known, and its port numbers differ; no IP twice in any list |
| Changes.DiffPartitions | network_monitor.py:208-222 | the new, disconnected and changed IPs are the set differences and the changed subset of the intersection, pairwise disjoint |
| Changes.DiffSelf | network_monitor.py:200-227 | comparing a table with itself reports nothing |
| Changes.DiffFromEmpty | network_monitor.py:209-211 | the first scan reports every device as new and nothing else |
| Changes.DiffToEmptyScan | network_monitor.py:200-227 | an empty scan, which is also what a failed scan returns, reports every known device as disconnected |
| Changes.ClosedPortScenario | network_monitor.py:213-217 | a host seen again with ports {22, 80} turned into {80} is reported only as changed |
| Monitor.NetworkMonitor.constructor | network_monitor.py:12-27 | the given settings, the default thresholds 2.0/5/10, an empty device table and empty traffic histories |
| Monitor.NetworkMonitor.ScanNetwork | network_monitor.py:54-86 | the scan returns the devices ScannedDevices specifies for the current interface list, sweep and setting |
| Monitor.NetworkMonitor.GetNetworkChanges | network_monitor.py:200-227 | the table becomes the new scan indexed by IP, the three lists are the comparison of the old table with it, and the monitor stays valid |
| Monitor.NetworkMonitor.AnalyzeTraffic | network_monitor.py:125-141 | only this host's history changes, to the recorded one, and the report is the anomaly report of that history, with statistics |
| Monitor.NetworkMonitor.DetectAnomaliesFor | network_monitor.py:143-146 | statistics are absent exactly when the host has no history |
| Web.PushFront | web_interface.py:159 | appendleft on the 50-slot deque puts the event first, keeps the older events after it, and keeps the length at min(n + 1, 50) |
| Web.PushFrontFull | web_interface.py:159 | on a full log the oldest event drops out |
| Web.PushFrontRoom | web_interface.py:217 | below 50 events nothing drops out |
| Web.PushAllKeepsNewest | web_interface.py:159 | after a batch of events the log is the batch reversed followed by the old log, cut to 50 |
| Web.PushAllConcat | web_interface.py:217 | logging two batches in turn is logging their concatenation |
| Web.SliceAsPython | web_interface.py:205 | the slice behaves as Python's: in-range bounds cut exactly, a negative start counts from the end, an end past the length is clamped, and a start past the end or an end before -len gives an empty list |
| Web.PageClipped | web_interface.py:199-205 | for page at least 1 and a non-negative limit, the page is the limit items from (page - 1) * limit, clipped at the end, never more than limit |
| Web.PageZeroEmpty | web_interface.py:199-205 | page 0 is empty |
| Web.PagesArePrefix | web_interface.py:199-205 | pages 1 to k together are the first k * limit items, and the whole list once k * limit reaches its length |
| Web.SortNewestFirstSpec | web_interface.py:176-180 | the sort is ordered newest first, is a permutation, and keeps devices with equal timestamps in their table order (stable) |
| Text.StrLtTransitive | web_interface.py:178 | the string order on timestamps is transitive |
| Text.StrLtTotal | web_interface.py:178 | any two different timestamps are ordered one way or the other |
| Web.Views | web_interface.py:181-190 | one projection per device, in order, with its IP, MAC and ports |
| Web.EventsResponse | web_interface.py:197-207 | a response exists exactly when page and limit parse as integers, and its total is the number of logged events |
| Web.DevicesResponse | web_interface.py:167-195 | a response exists exactly when page and limit parse as integers, and its total is the number of known devices |
| Web.DefaultDevicesPage | web_interface.py:167-195 | without arguments the response shows the 10 newest known devices, projected, newest first |
| Web.WebInterface.constructor | web_interface.py:157-159 | the dashboard shows the given monitor and starts with an empty log |
| Web.WebInterface.AddEvent | web_interface.py:209-217 | the event with its kind, device, tier and timestamp is pushed at the front of the capped log |
| Web.WebInterface.GetEvents | web_interface.py:197-207 | the handler returns the specified events page |
| Web.WebInterface.Project | web_interface.py:176-190 | the projection loop yields exactly the specified views of the selected devices, in order |
| Web.WebInterface.GetDevices | web_interface.py:167-195 | the handler's loop returns the specified devices page of the monitor's current table |
| Discord.RiskPresentationDistinct | discord_notifier.py:90-97 | the three tiers have different emojis, colours and texts |
| Discord.PortLine | discord_notifier.py:112-114 | every port contributes a non-empty text |
| Discord.PortsInfoEmpty | discord_notifier.py:109-121 | the port text is empty exactly when there are no ports |
| Discord.DeviceAlertShape | discord_notifier.py:93-124 | the embed title starts with the tier's emoji, its colour is the tier's, the device field comes first, and there is a ports field exactly when the device has ports |
| Discord.AlertsFor | discord_notifier.py:93-126 | one embed per device, in list order |
| Discord.ChangedAlerts | discord_notifier.py:139-148 | one embed per changed device, each with that device's own tier |
| Discord.NotificationsLayout | discord_notifier.py:131-148 | new, then disconnected, then changed devices' embeds; one embed per device in all |
| Discord.DiscordNotifier.constructor | discord_notifier.py:11-21 | nothing has been sent yet |
| Discord.DiscordNotifier.PortsInfoText | discord_notifier.py:110-114 | the loop builds the specified port text |
| Discord.DiscordNotifier.BuildEmbed | discord_notifier.py:93-124 | the embed built for one device is the specified device alert: title with the tier's emoji, tier colour, device field, ports field when there are ports, footer |
| Discord.DiscordNotifier.SendAlert | discord_notifier.py:82-129 | exactly the device embeds are appended to the sent messages, in order |
| Discord.DiscordNotifier.SendChangedAlerts | discord_notifier.py:140-148 | each changed device gets one alert of its own with its own tier, in list order, appended to the sent messages |
| Discord.DiscordNotifier.NotifyNetworkChanges | discord_notifier.py:131-148 | exactly the specified notifications are appended to the sent messages, in order |
| Bot.EnvFlagExamples | main.py:17 | common-port scanning is on when the variable is unset or is "true" in any letter case, off otherwise |
| Bot.EventsFor | main.py:29-32 | one low-risk event of the kind per device, in order |
| Bot.ChangedEvents | main.py:33-41 | one "Port Changes Detected" event per changed device with that device's tier |
| Bot.IterationEventsLayout | main.py:28-41 | an iteration logs one event per device: new devices first, then disconnected ones, then changed ones with their tiers |
| Bot.QuietNetwork | main.py:26-46 | a rescan that finds the known table again logs no event and sends no alert |
| Bot.FirstIteration | main.py:26-46 | the first iteration announces every scanned device as new, once on the dashboard and once on Discord |
| Bot.NetworkMonitorBot.constructor | main.py:12-20 | the monitor gets the settings read from the environment; the dashboard shows that monitor; nothing is logged or sent |
| Bot.NetworkMonitorBot.LogDevices | main.py:29-32 | the loop logs the specified events |
| Bot.NetworkMonitorBot.LogChanged | main.py:33-41 | the loop logs the specified events, each with the device's tier |
| Bot.NetworkMonitorBot.MonitorOnce | main.py:22-46 | one iteration replaces the table with the new scan, logs the iteration's events in order, and then sends its notifications |

## Left out

Outside-world operations:

- The ARP sweep (scapy), the nmap subprocess and the `netifaces` calls are not modelled. Their outcomes are inputs: the interface list, the sweep's answering hosts or its exception, and each host's nmap exit code and output.
- `scan_ports_async` builds the nmap argument list, but that list is not modelled. Its `1-1024` branch cannot be reached from `scan_network`, which does not probe at all when common-port scanning is off.
- Decoding nmap's output is not modelled: the output is taken as already decoded, and a decoding error is not modelled.
- `datetime.now()` is not modelled. Clock readings are parameters:
  - microseconds for traffic samples;
  - the formatted strings for device and event timestamps.
- In `monitor_network` each `add_event` reads the clock itself. The model passes one stamp for the whole iteration.
- Reading the environment (`os.getenv`) and `.env` is not modelled: the values are parameters.
- Bot.NetworkMonitorBot.constructor: requires SCAN_INTERVAL and PORT_SCAN_TIMEOUT, when set, to be integers as `int()` reads them. Otherwise `int()` raises ValueError and the bot never starts (main.py:14-15); the model takes a failed start-up as outside its scope.

Settings and helpers:

- `Text.ParseInt` models Python `int()`, with these limits:
  - it accepts ASCII digits, an optional sign and single underscores between digits;
  - surrounding whitespace and non-ASCII digits are not accepted.
  - This matters only for environment variables and query arguments. nmap's port field never holds those.
- `Text.Lower` lower-cases ASCII letters only. For the comparison with telnet, ftp and rpc this gives the same answer as Python's full `str.lower()`.

Traffic:

- `Traffic.DetectAnomalies` computes its statistics in exact reals, not floating point.
  - The stats it reports are the sample variances, not `statistics.stdev`.
  - The spike test is its squared form, proved equivalent to the source's test by `Traffic.SpikeTestMatchesStdev` for the true standard deviation.
- `Monitor.NetworkMonitor.DetectAnomaliesFor` is a pure read. The source's `defaultdict` lookup also inserts an empty history for an unseen host. That cannot be observed, because the lookup only follows `analyze_traffic`, which has just recorded a sample.
- `baseline_traffic` and the `connection_frequency` threshold are never read by the source. The second is kept as a field; neither is used.

Logging, Discord and the web server:

- Logging (`_setup_logging` and every `logger` call) is not modelled.
- The Discord client is not modelled:
  - `start`, `stop`, `on_ready`, `on_message` and `_cleanup_messages`;
  - reading the token and the user id.
- `Discord.DiscordNotifier.SendAlert`: a failed `fetch_user` sends nothing, and an exception part-way sends a prefix. Neither is modelled: the model appends every embed.
- The embed timestamp is not modelled: it is a clock reading, shared by one call's embeds.
- The Flask application is not modelled:
  - the `/` page and its HTML and JavaScript;
  - `run()`;
  - JSON encoding.

Concurrency and the main loop:

- `NetworkMonitorBot.start`, `start_web_interface`, the web thread, the event loop and the `__main__` block are not modelled.
- The endless `while True` loop and `asyncio.sleep(scan_interval)` are not modelled: `Bot.NetworkMonitorBot.MonitorOnce` is one iteration.
- Concurrent reads of the device table by the web thread are not modelled.
