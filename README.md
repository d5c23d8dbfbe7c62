# Scan-Sayer core, modelled in Dafny

Scan-Sayer is a command-line network scanner. One run has a fixed order:
1. It expands the target (a host name, an address, or an IPv4 block in prefix notation) into hosts.
2. It finds the open ports of each host. It uses nmap when nmap is installed and plain TCP connects to 21 well-known ports otherwise.
3. It fingerprints web servers on ports 80, 443, 8080 and 8443.
4. It runs four vulnerability checkers in turn: WordPress, Craft CMS, SMB and Zyxel.
5. It prints a report and, when an output name is given, writes the report as JSON and as HTML.

The process exits with status 0 after a completed run or a Ctrl-C, and with 1 after any other exception.

This project models the deterministic decisions inside that I/O:
- which hosts a target gives;
- which port records each scan backend produces, and in what order;
- which web probes are kept, and what they record;
- how the report counts vulnerable findings and builds its table rows;
- which section the report shows;
- which keys the JSON record holds;
- how the driver fills the `results` dictionary, phase by phase;
- which input the SMB checker gets;
- how the HTML file name is derived;
- the exit status.

The outside world is a set of oracles, defined in `environment.dfy`:
- DNS resolution;
- IPv4 block parsing;
- TCP connects;
- nmap replies;
- HTTP replies, with the page title as the HTML parser finds it.

The vulnerability checkers are oracles too (`ScanSayerApp.Checkers`). Each checker either returns a list of findings or raises.

Files and modules:
- `common.dfy` (`Common`): `Option`, `Result`, and the exceptions that matter to the exit status.
- `text.dfy` (`Text`): decimal numerals (`str(n)`) with their inverse, and `str.strip()` over Python's whitespace set.
- `ipv4.dfy` (`Ipv4`): IPv4 blocks.
  - The network and broadcast addresses.
  - `hosts()`.
  - The dotted-decimal text of an address, with a parser that reads it back.
- `sorting.dfy` (`Sorting`): `sorted()` of a set of port numbers.
- `environment.dfy` (`Environment`): the oracles.
- `asset_discovery.dfy` (`Discovery`): the discovery records, the specification functions of each phase, and the class `AssetDiscovery`. Its methods update `hosts`, `ports` and `webServices` the way the Python methods do, proved against those functions.
- `report_generator.dfy` (`Report`): counting, rows, sections and the JSON record. The class `ReportGenerator` has loops proved against the counting and row functions.
- `posix_path.dfy` (`PosixPath`): `os.path.splitext` with POSIX rules, and the derived HTML file name.
- `scansayer.dfy` (`ScanSayerApp`): the class `ScanSayer`, with `Run`, and the entry point `ScanMain`.
  - `Run` fills `results` in phase order.
  - A ghost `keyOrder` tracks the dictionary's insertion order.
  - `scanCount` counts the phases.

Three behaviours of the code a reader might not expect:
- An unresolvable name or a malformed block does not end the run. `_identify_targets` catches the error, `hosts` stays empty, and the run goes on with no hosts (modules/asset_discovery.py:90-91). The SMB checker then gets the target as its first host, with no ports.
- On the nmap path, a host whose `nm.scan` raises gets no `ports` entry at all. It does not get an empty one (modules/asset_discovery.py:112-114). A host that is missing from nmap's report gets an empty entry.
- A Ctrl-C during a run exits with status 0 (scansayer.py:151-153).

A worker count of zero or less is refused by every `ThreadPoolExecutor(max_workers=threads)` with `ValueError`: on the fallback scan at the first host (modules/asset_discovery.py:145), after that host's entry was reset, and always at web discovery (modules/asset_discovery.py:208). `discover` then raises, and the process exits with status 1.

## Model

| member | source | states |
|---|---|---|
| Discovery.ServiceName | modules/asset_discovery.py:175-200 | the name is something other than "unknown" exactly when the port is one of the 21 probed ports, so the table covers the probe list |
| Discovery.CommonPortsAscending | modules/asset_discovery.py:139 | the fallback scan probes its ports in strictly ascending order |
| Discovery.SingleTarget | modules/asset_discovery.py:86-91 | a target without '/' gives exactly one host, the address it resolves to; a resolution failure gives none |
| Discovery.BlockTarget | modules/asset_discovery.py:80-83 | for a prefix of at most 30 bits, the hosts are the 2^(32-p) - 2 usable addresses of the block, ascending, each as its dotted text, all distinct |
| Ipv4.BlockBounds | modules/asset_discovery.py:82 | the block's network address is at most the written address, which is at most the broadcast address, which is inside the IPv4 space |
| Ipv4.UsableHosts | modules/asset_discovery.py:83 | for a prefix of at most 30 bits, `hosts()` is exactly the addresses strictly between network and broadcast, and there are size - 2 of them |
| Ipv4.Slash30 | modules/asset_discovery.py:83 | a /30 block has exactly two hosts: network + 1 and network + 2 |
| Ipv4.HostsAscending | modules/asset_discovery.py:83 | `hosts()` is strictly ascending, for every prefix |
| Ipv4.HostsInsideBlock | modules/asset_discovery.py:83 | every host of every block lies between its network and broadcast addresses |
| Ipv4.HostBitsIgnored | modules/asset_discovery.py:82 | with `strict=False`, clearing the host bits of the written address gives the same hosts |
| Ipv4.Octets | modules/asset_discovery.py:83 | an address splits into four octets below 256 that recombine to it |
| Ipv4.DottedRoundTrip | modules/asset_discovery.py:83 | parsing the dotted text `str(ip)` gives back the address |
| Ipv4.DottedInjective | modules/asset_discovery.py:83 | different addresses have different dotted texts |
| Ipv4.HostStringsDistinct | modules/asset_discovery.py:83 | an expanded block never lists the same host text twice |
| Text.NatStr | modules/asset_discovery.py:216 | the port's numeral in a URL is made of digits, has no leading zero, and has one digit exactly for values below 10 |
| Text.DecimalRoundTrip | modules/asset_discovery.py:216 | reading the numeral `str(n)` back gives n |
| Text.NatStrInjective | modules/asset_discovery.py:216 | different ports have different numerals |
| Text.StripSlice | modules/asset_discovery.py:242 | `strip()` keeps one contiguous slice: what it drops on each side is whitespace, and the kept text neither starts nor ends with whitespace |
| Text.StripFixed | modules/asset_discovery.py:242 | a text that neither starts nor ends with whitespace is left unchanged by `strip()` |
| Text.StripIdempotent | modules/asset_discovery.py:242 | stripping a title twice is stripping it once |
| Sorting.Ascending | modules/asset_discovery.py:117 | `sorted(keys)` lists every port key exactly once, strictly ascending |
| Discovery.OpenRecordsMembers | modules/asset_discovery.py:148-159 | the fallback records are exactly the "open" records of the probed ports whose connect succeeded |
| Discovery.OpenRecordsOrdered | modules/asset_discovery.py:148-159 | probing ports in ascending order gives records in ascending port order |
| Discovery.SocketRecordsSpec | modules/asset_discovery.py:141-165 | a host's fallback records are exactly its open common ports, in ascending order, each with state "open", empty version and the table's name (never "unknown"); closed and failed probes add nothing |
| Discovery.PortScanKeys | modules/asset_discovery.py:93-101 | every `ports` entry, from either backend, belongs to a host; the fallback scan gives every host an entry, even an empty one |
| Discovery.VersionText | modules/asset_discovery.py:124 | the version field is the product, one space, then the version, with absent parts empty: the text before the space is the product and the text after it the version |
| Discovery.BareVersion | modules/asset_discovery.py:124 | a port reported with neither product nor version gets the version " " |
| Discovery.PortListRecordsSpec | modules/asset_discovery.py:117-127 | one record per port of the sorted list, in that order, carrying nmap's state and name |
| Discovery.ProtocolRecordsSpec | modules/asset_discovery.py:116-127 | a protocol gives one record per reported port, ports ascending, each from nmap's entry for that port |
| Discovery.HostWebServicesMembers | modules/asset_discovery.py:210-231 | a host's web entries are exactly its successful probes on the listed ports |
| Discovery.WebScanMembers | modules/asset_discovery.py:208-231 | a web service is listed exactly when some host answered it on one of the four web ports |
| Discovery.WebProbeKeeps200 | modules/asset_discovery.py:213-231 | a probe yields an entry exactly when its request got a response with status 200, and the entry holds the URL, 200, the server (or "Unknown") and the title rule |
| Discovery.WebEntries | modules/asset_discovery.py:213-231 | every listed entry answered a request with status 200, stores that status, and has the URL of a host and a web port; server and title come from the reply, defaulting to "Unknown" and the title rule |
| Discovery.WebScanComplete | modules/asset_discovery.py:208-231 | every status-200 reply of a host on one of the four web ports is listed, with its server and title |
| Discovery.UrlInjective | modules/asset_discovery.py:216 | for hosts without ':' (every IPv4 text), two probes share a URL only when host and port are the same |
| Discovery.AssetDiscovery.constructor | modules/asset_discovery.py:49-56 | stores the arguments, starts with empty hosts, ports and web services, and fixes the nmap flag once |
| Discovery.AssetDiscovery.Discover | modules/asset_discovery.py:58-75 | identify, then scan ports over the identified hosts, then fingerprint them; returns exactly those three fields; with a worker count below 1 it raises `ValueError` instead, after the fallback scan reset the first host's entry, and leaves `web_services` alone |
| Discovery.AssetDiscovery.IdentifyTargets | modules/asset_discovery.py:77-91 | `hosts` becomes the expanded block or the resolved address, and stays as it was when the error is caught |
| Discovery.AssetDiscovery.ScanPorts | modules/asset_discovery.py:93-101 | the backend is chosen by the flag set in the constructor, and the entries it sets are added to `ports`; the fallback backend raises `ValueError` for a worker count below 1 when there is a host, after resetting the first host's entry |
| Discovery.AssetDiscovery.ScanPortsWithNmap | modules/asset_discovery.py:103-135 | adds the nmap entries of every host, or the fallback entries (and their `ValueError`) when nmap cannot be imported |
| Discovery.AssetDiscovery.NmapHost | modules/asset_discovery.py:109-132 | a host whose scan raised gets no entry; otherwise its entry is its records protocol after protocol (empty when the host is missing from the report) |
| Discovery.AssetDiscovery.AppendProtocols | modules/asset_discovery.py:116-127 | appends each protocol's records in `all_protocols()` order and changes no other host |
| Discovery.AssetDiscovery.NmapProtocolPorts | modules/asset_discovery.py:116-127 | appends one protocol's records, ports ascending |
| Discovery.AssetDiscovery.AppendPortList | modules/asset_discovery.py:117-127 | appends one record per listed port, in list order |
| Discovery.AssetDiscovery.ScanPortsWithSocket | modules/asset_discovery.py:137-165 | sets every host's entry to its fallback records; with a worker count below 1 and a host, raises `ValueError` after resetting only the first host's entry |
| Discovery.AssetDiscovery.ProbeHost | modules/asset_discovery.py:141-165 | resets the host's entry and appends one "open" record per successful connect, in probing order; the pool raises `ValueError` for a worker count below 1, leaving the entry empty |
| Discovery.AssetDiscovery.DiscoverWebServices | modules/asset_discovery.py:202-211 | appends exactly the successful probes of every host and web port (as a multiset); raises `ValueError` for a worker count below 1 and appends nothing |
| Discovery.AssetDiscovery.FingerprintHost | modules/asset_discovery.py:209-211 | appends one host's successful probes over the four web ports |
| Discovery.AssetDiscovery.CheckWebService | modules/asset_discovery.py:213-236 | appends exactly one entry, with the URL, 200, the server (or "Unknown") and the title, for a status-200 reply, and nothing for another status or a failed request |
| Report.CountIsVulnerableIndices | modules/report_generator.py:29-53 | a category's count is the number of findings whose `vulnerable` flag is true; a missing flag counts as false |
| Report.OtherKeysIgnored | modules/report_generator.py:29-53 | keys other than the four categories never change `vuln_count` |
| Report.MissingCategoriesCountZero | modules/report_generator.py:29-53 | results without any of the four categories count zero |
| Report.ZeroCountNoneVulnerable | modules/report_generator.py:29-53 | a category counts zero exactly when none of its findings is flagged vulnerable |
| Report.CountVulnerabilities | modules/report_generator.py:29-53 | the four counting loops compute `vuln_count` |
| Report.ReportGenerator.constructor | modules/report_generator.py:22-27 | stores target, results, scan time and duration unchanged, and computes `vuln_count` once |
| Report.FormatRow | modules/report_generator.py:69-87 | a vulnerable finding yields a row exactly when it has every entry its category's row reads (else `KeyError`), and the row carries the category's label |
| Report.CategoryRowsSpec | modules/report_generator.py:69-87 | a category's rows can be built exactly when all its vulnerable findings have the needed entries, and then there is one row per vulnerable finding |
| Report.CategoryRowsOrigin | modules/report_generator.py:69-87 | each row is the formatted row of a vulnerable finding of that category |
| Report.CategoryRowsAt | modules/report_generator.py:69-87 | the row of a vulnerable finding sits at the position given by the number of vulnerable findings before it |
| Report.CategoryRowsComplete | modules/report_generator.py:69-87 | every vulnerable finding of the category has its row among the rows |
| Report.CategoryRowsOrder | modules/report_generator.py:69-87 | the rows of two vulnerable findings appear in the findings' order |
| Report.CategoryRowsKind | modules/report_generator.py:69-87 | every row of a category carries that category's label |
| Report.KeyErrorPersists | modules/report_generator.py:69-87 | once a finding raises `KeyError`, the whole category's rows raise |
| Report.RowsMatchCount | modules/report_generator.py:63-89 | the table can be built exactly when every vulnerable finding is formattable, and then it has exactly `vuln_count` rows |
| Report.NoVulnerabilitiesNoRows | modules/report_generator.py:63-91 | with nothing vulnerable, building the rows cannot raise and gives no rows |
| Report.RowsOrdered | modules/report_generator.py:69-87 | the rows come WordPress first, then Craft CMS, then SMB, then Zyxel |
| Report.SectionChoice | modules/report_generator.py:63-91 | the table is shown exactly when `vuln_count > 0`, with `vuln_count` rows; otherwise the no-vulnerabilities message is shown; only the table can raise |
| Report.Payload | modules/report_generator.py:96-102 | the JSON record has exactly the keys target, scan_time, duration, vuln_count and results |
| Report.AddCategoryRows | modules/report_generator.py:69-87 | one category's loop appends that category's rows to the table, or stops with `KeyError` |
| Report.BuildRows | modules/report_generator.py:63-89 | the four loops build exactly the report's rows, or raise `KeyError` |
| Report.ReportGenerator.DisplayConsoleReport | modules/report_generator.py:55-91 | shows the summary with the section `vuln_count` selects, or raises `KeyError` from a row |
| Report.ReportGenerator.SaveJsonReport | modules/report_generator.py:93-111 | writes the five-key record and returns true when the file can be written, otherwise returns false |
| Report.ReportGenerator.SaveHtmlReport | modules/report_generator.py:113-235 | writes the same summary and section as the console and returns true; returns false on `KeyError` or a failed write |
| PosixPath.SplitExtParts | scansayer.py:101 | `splitext` gives root + ext == path, and ext is empty or one dot followed by text with neither '.' nor '/' |
| PosixPath.HtmlPathResplit | scansayer.py:101 | the HTML name splits back into the same root and ".html" exactly when the root's basename has a character other than '.' |
| PosixPath.HtmlPathReplacesExtension | scansayer.py:101 | "r.json" gives "r.html" |
| PosixPath.HtmlPathAddsExtension | scansayer.py:101 | "r" gives "r.html" |
| PosixPath.HtmlPathHiddenFile | scansayer.py:101 | ".r" has no extension and gives ".r.html" |
| PosixPath.HtmlPathDottedDirectory | scansayer.py:101 | only the last component counts: "out.d/r" gives "out.d/r.html" |
| ScanSayerApp.KeyOrderKeys | scansayer.py:56-85 | the tracked insertion order holds exactly the dictionary's keys and only grows |
| ScanSayerApp.KeyOrderFresh | scansayer.py:56-85 | assigning new, distinct keys appends them to the order in assignment order |
| ScanSayerApp.CheckerPhasesSpec | scansayer.py:62-87 | the checkers run in category order; each one that returns is recorded under its category, and the first that raises ends the phases with its exception |
| ScanSayerApp.CompletedRunKeys | scansayer.py:55-87 | a completed run fills exactly the seven keys hosts, ports, web_services, wordpress, craftcms, smb, zyxel, in that order |
| ScanSayerApp.SmbInputAfterDiscovery | scansayer.py:77-79 | the SMB checker gets nothing when there are no hosts; with the fallback scan it gets the first host's open ports |
| ScanSayerApp.FirstHostOfName | scansayer.py:77 | for a name or address, the first host is the resolved address, or the target itself when resolution fails |
| ScanSayerApp.ExitStatus | scansayer.py:150-156 | the status is 0 after a completed run or `KeyboardInterrupt`, and 1 after any other exception |
| ScanSayerApp.ScanSayer.constructor | scansayer.py:37-44 | stores the arguments and starts with empty results and `scan_count` 0 |
| ScanSayerApp.ScanSayer.SetResult | scansayer.py:56 | one dictionary assignment: the value is set, and the key joins the insertion order the first time |
| ScanSayerApp.ScanSayer.Run | scansayer.py:48-106 | the outcome is `RunOutcome` for the stored web services, an order of the successful probes: discovery's `ValueError` for a worker count below 1 (results untouched), else the first checker exception, else the report or its `KeyError`; the results are the discovery output and the checker outputs in phase order; a completed run has `scan_count` 5 and 6 progress advances |
| ScanSayerApp.ScanSayer.DiscoveryPhase | scansayer.py:53-60 | stores the discovery output verbatim under hosts, ports and web_services, and counts one phase; when discovery raises `ValueError`, stores and counts nothing |
| ScanSayerApp.ScanSayer.RecordDiscovery | scansayer.py:56-59 | the three assignments of discovery, in order, and one phase counted |
| ScanSayerApp.ScanSayer.CheckersAndReport | scansayer.py:62-106 | after discovery: the checker phases are recorded in order; the first checker exception is the outcome, otherwise the report or its `KeyError`, with 6 progress advances |
| ScanSayerApp.ScanSayer.RunCheckers | scansayer.py:62-87 | the four checker phases: the entries recorded and the exception raised are those of the checker phases, and one phase is counted per checker that returned |
| ScanSayerApp.ScanSayer.CheckPhase | scansayer.py:62-66 | a checker that returns has its findings stored under its key and counts a phase; one that raises changes nothing |
| ScanSayerApp.ScanSayer.ReportPhase | scansayer.py:89-104 | shows the report, or raises `KeyError`; writes JSON and the derived HTML file only when an output name is set |
| ScanSayerApp.RunExitStatus | scansayer.py:124-156 | a worker count below 1 exits with status 1; otherwise the status is 0 exactly when a checker raised `KeyboardInterrupt` or no checker raised and the report could be built |
| ScanSayerApp.ScanMain | scansayer.py:124-156 | the outcome is `RunOutcome` of the arguments on an empty dictionary, for some order of the successful web probes, and the status is its exit status; a completed run advanced the progress bar 6 times |

## Left out

- Sockets, DNS, HTTP, nmap, `subprocess` and `is_nmap_installed` are oracle answers in `Environment.Network`. Timeouts and user agents are not modelled.
- BeautifulSoup is an oracle too: the page title is an optional text. A parser exception counts as no title.
- `ipaddress.ip_network` parsing is an oracle that returns an IPv4 block or a `ValueError`. IPv6 targets are not modelled.
- For /31 and /32 blocks the model follows current `hosts()` behaviour. The target lemmas are stated only for prefixes of at most 30 bits, because older library versions differ.
- Thread pools are sequential loops in submission order.
- Discovery.AssetDiscovery.DiscoverWebServices: states the web service list only as a multiset, because worker threads append in completion order.
- Discovery.AssetDiscovery.Discover: states `web_services` only as a multiset, for the same reason.
- ScanSayerApp.ScanSayer.Run: the stored web service list is any order of the successful probes. The checkers get exactly that list.
- ScanSayerApp.ScanSayer.DiscoveryPhase: states `web_services` only as a multiset, as above.
- Per-port exceptions in the fallback scan are the `Failed` probe outcome. Like a closed port, they add nothing.
- `_check_web_service` catches only `RequestException`. Any other exception dies unread with its worker's future, so it too adds nothing; `RequestFailed` stands for both.
- An exception from the `nmap.PortScanner()` constructor escapes `discover` and ends the run with status 1. This is not modelled.
- So are nmap port entries missing the `state` or `name` key, which would leave a host's records partly built. Every nmap port entry here carries both keys.
- Ctrl-C is modelled only as a vulnerability checker raising `KeyboardInterrupt`. An interrupt during discovery or the report is not modelled.
- A finding's `vulnerable` entry is taken to be a boolean (or missing). Python counts any truthy value there; the model counts only `true`.
- The vulnerability checkers are oracles, because their module is not part of this model.
- Their constructors cannot fail here, and their console output is not modelled.
- `Run` reads hosts, ports and web services back from `results`. The model passes the values it has just stored there, which are the same values.
- `time.time`, `datetime.now` and the `:.2f` duration formatting are not modelled. The scan time and duration are parameters that are passed through unchanged.
- The literal console text, the HTML markup, the JSON encoding (`json.dump` with `ensure_ascii=False` and `indent=4`) and file writes are not modelled.
  - The model keeps the summary, the section with its rows, the five-key record and the returned booleans.
  - Whether a file can be written is an oracle over its path.
- Report.ReportGenerator.SaveJsonReport: "any exception" reduces to the file-writability oracle. A serialisation failure of `results` is not modelled.
- The `rich` console, the progress widget, the banner, colorama and the urllib3 warning filter are not modelled. Only the number of progress advances is kept.
- `verbose` affects only printing. `threads` is the pool width: below 1 it makes discovery raise `ValueError` (exit status 1); otherwise it has no effect here, since pools are sequential.
- argparse is not modelled: a missing `-t` (exit status 2), `--version` and `--threads` conversion. `ScanSayerApp.ScanMain` takes the parsed arguments.
- run.py, setup.py and modules/__init__.py hold installation and re-export code only, so they are not part of this model.
