/**
  What the scanner learns from the outside world: the operating system, the
  network, the `nmap` tool and the HTML parser. Each is an oracle here: a
  fixed answer per question, with the failures the code catches spelled out.
 */
module Environment {
  import opened Common
  import Ipv4

  /** One TCP connect attempt (`_check_port` as seen through its future). */
  datatype Probe =
    | Open     // connect_ex returned 0
    | Closed   // connect_ex returned an error code or timed out
    | Failed   // the probe raised (socket error), caught when its result is read

  /**
    One `requests.get(url, ..., timeout=10, verify=False)`. A response carries
    its status code, its `Server` header if present, and the text of its
    `<title>` element as the HTML parser finds it (`None` when there is no
    title element, when it has no single string, or when parsing raises).
   */
  datatype HttpReply =
    | RequestFailed
    | Response(status: int, server: Option<string>, title: Option<string>)

  /** One port entry of an nmap host report (`nm[host][proto][port]`). */
  datatype NmapService = NmapService(state: string, name: string, product: Option<string>, version: Option<string>)

  /** One protocol of an nmap host report, keyed by port number. */
  datatype NmapProtocol = NmapProtocol(name: string, ports: map<nat, NmapService>)

  /**
    What `nm.scan(host, ...)` followed by `nm[host]` yields: the scan raised,
    the scan ran but the host is not in the report (`nm[host]` raises), or
    the host's protocols in the order `all_protocols()` lists them.
   */
  datatype NmapReply =
    | ScanRaised
    | HostMissing
    | Scanned(protocols: seq<NmapProtocol>)

  /** The oracles one run of the scanner consults. */
  datatype Network = Network(
    nmapInstalled: bool,                       // is_nmap_installed()
    nmapImportable: bool,                      // `import nmap` inside the nmap scan
    parseBlock: string -> Option<Ipv4.Block>,  // ip_network(target, strict=False); None: ValueError
    resolve: string -> Option<string>,         // socket.gethostbyname; None: gaierror
    connect: (string, nat) -> Probe,           // one TCP connect per host and port
    nmapScan: string -> NmapReply,             // nm.scan(host, '-sS -sV -T4 --top-ports 1000')
    httpGet: string -> HttpReply               // one GET per URL
  )
}
