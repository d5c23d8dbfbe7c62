/**
  Asset discovery: expanding the target into hosts, finding open ports on each
  host (with nmap when it is installed, by plain TCP connects otherwise) and
  fingerprinting the web servers on the four usual web ports.
 */
module Discovery {
  import opened Common
  import opened Text
  import Ipv4
  import Sorting
  import opened Environment

  /** One entry of `ports[host]`. */
  datatype PortRecord = PortRecord(port: nat, state: string, service: string, version: string)

  /** One entry of `web_services`. */
  datatype WebService = WebService(url: string, status: int, server: string, title: string)

  /** The dictionary `discover` returns. */
  datatype DiscoveryResult = DiscoveryResult(
    hosts: seq<string>,
    ports: map<string, seq<PortRecord>>,
    webServices: seq<WebService>)

  /** The ports the connect-based fallback probes, in probing order. */
  const CommonPorts: seq<nat> :=
    [21, 22, 23, 25, 53, 80, 110, 111, 135, 139, 143, 443, 445, 993, 995, 1723, 3306, 3389, 5900, 8080, 8443]

  /** The ports the web fingerprinting tries on every host. */
  const WebPorts: seq<nat> := [80, 443, 8080, 8443]

  /** The port-to-service table of `_get_service_name`. */
  const ServiceTable: map<nat, string> := map[
    21 := "ftp", 22 := "ssh", 23 := "telnet", 25 := "smtp", 53 := "domain",
    80 := "http", 110 := "pop3", 111 := "rpcbind", 135 := "msrpc",
    139 := "netbios-ssn", 143 := "imap", 443 := "https", 445 := "microsoft-ds",
    993 := "imaps", 995 := "pop3s", 1723 := "pptp", 3306 := "mysql",
    3389 := "ms-wbt-server", 5900 := "vnc", 8080 := "http-proxy", 8443 := "https-alt"]

  /**
    `_get_service_name`: the table's name for a listed port, "unknown" for any
    other. The table lists exactly the probed ports, so a probed port never
    gets "unknown".
   */
  function ServiceName(port: nat): (name: string)
    ensures name != "unknown" <==> port in CommonPorts
  {
    if port in ServiceTable then ServiceTable[port] else "unknown"
  }

  lemma CommonPortsAscending()
    ensures Sorting.StrictlyAscending(CommonPorts)
  {
  }

  // ---------------------------------------------------------------------
  // Target expansion (`_identify_targets`)
  // ---------------------------------------------------------------------

  /**
    The host list `_identify_targets` assigns, or None when it catches a
    `ValueError` (bad block) or a `gaierror` (unresolvable name).
   */
  function TargetHosts(net: Network, target: string): Option<seq<string>>
  {
    if '/' in target then
      match net.parseBlock(target)
      case Some(b) => Some(Ipv4.HostStrings(b))
      case None => None
    else
      match net.resolve(target)
      case Some(ip) => Some([ip])
      case None => None
  }

  /** `hosts` after `_identify_targets`: unchanged when the error was caught. */
  function IdentifiedHosts(net: Network, target: string, before: seq<string>): seq<string>
  {
    TargetHosts(net, target).GetOr(before)
  }

  /** A target without '/' yields exactly one host, its resolved address, or none. */
  lemma SingleTarget(net: Network, target: string)
    requires '/' !in target
    ensures match TargetHosts(net, target)
      case Some(hs) => |hs| == 1 && Some(hs[0]) == net.resolve(target)
      case None => net.resolve(target).None?
  {
  }

  /**
    A block target with a prefix of at most 30 bits yields the block's usable
    addresses, ascending, as distinct dotted-decimal texts; network and
    broadcast addresses are left out.
   */
  lemma BlockTarget(net: Network, target: string, b: Ipv4.Block)
    requires '/' in target && net.parseBlock(target) == Some(b) && b.prefix <= 30
    ensures TargetHosts(net, target).Some?
    ensures var hs := TargetHosts(net, target).value;
      var addrs := Ipv4.HostAddrs(b);
      && |hs| == |addrs| == Ipv4.BlockSize(b) - 2
      && (forall i :: 0 <= i < |hs| ==> hs[i] == Ipv4.Dotted(addrs[i]) && addrs[i] == Ipv4.NetworkAddress(b) + 1 + i)
      && (forall i, j :: 0 <= i < j < |hs| ==> hs[i] != hs[j])
  {
    Ipv4.UsableHosts(b);
    Ipv4.HostStringsDistinct(b);
    Ipv4.BlockBounds(b);
    var addrs := Ipv4.HostAddrs(b);
    forall i | 0 <= i < |addrs|
      ensures addrs[i] == Ipv4.NetworkAddress(b) + 1 + i
    {
    }
  }

  // ---------------------------------------------------------------------
  // Connect-based port scan (`_scan_ports_with_socket`)
  // ---------------------------------------------------------------------

  /** The record the fallback scan appends for an open port. */
  function OpenRecord(port: nat): PortRecord
  {
    PortRecord(port, "open", ServiceName(port), "")
  }

  /** The records the fallback scan collects for `host` over `ports`, in order. */
  function OpenRecords(net: Network, host: string, ports: seq<nat>): seq<PortRecord>
  {
    if ports == [] then []
    else
      var last := ports[|ports| - 1];
      OpenRecords(net, host, ports[..|ports| - 1])
        + (if net.connect(host, last) == Open then [OpenRecord(last)] else [])
  }

  /** `ports[host]` after the fallback scan. */
  function SocketRecords(net: Network, host: string): seq<PortRecord>
  {
    OpenRecords(net, host, CommonPorts)
  }

  /** The entries the fallback scan sets: one per host, even when empty. */
  function SocketScan(net: Network, hosts: seq<string>): map<string, seq<PortRecord>>
  {
    map h | h in hosts :: SocketRecords(net, h)
  }

  lemma {:induction false} OpenRecordsMembers(net: Network, host: string, ports: seq<nat>)
    ensures forall r :: r in OpenRecords(net, host, ports) ==>
      r == OpenRecord(r.port) && r.port in ports && net.connect(host, r.port) == Open
    ensures forall p :: p in ports && net.connect(host, p) == Open ==> OpenRecord(p) in OpenRecords(net, host, ports)
  {
    if ports != [] {
      var init := ports[..|ports| - 1];
      OpenRecordsMembers(net, host, init);
      assert ports == init + [ports[|ports| - 1]];
    }
  }

  lemma {:induction false} OpenRecordsOrdered(net: Network, host: string, ports: seq<nat>)
    requires Sorting.StrictlyAscending(ports)
    ensures forall i, j :: 0 <= i < j < |OpenRecords(net, host, ports)| ==>
      OpenRecords(net, host, ports)[i].port < OpenRecords(net, host, ports)[j].port
  {
    if ports != [] {
      var init := ports[..|ports| - 1];
      OpenRecordsOrdered(net, host, init);
      OpenRecordsMembers(net, host, init);
    }
  }

  /**
    The fallback scan of one host keeps exactly the ports whose probe found
    them open, in ascending (probing) order, each with state "open", the
    table's service name (never "unknown") and an empty version. Closed and
    failed probes add nothing.
   */
  lemma SocketRecordsSpec(net: Network, host: string)
    ensures var recs := SocketRecords(net, host);
      && (forall r :: r in recs ==>
            r.state == "open" && r.version == "" && r.service == ServiceName(r.port) && r.service != "unknown")
      && (forall p :: (exists r :: r in recs && r.port == p) <==> p in CommonPorts && net.connect(host, p) == Open)
      && (forall i, j :: 0 <= i < j < |recs| ==> recs[i].port < recs[j].port)
  {
    OpenRecordsMembers(net, host, CommonPorts);
    OpenRecordsOrdered(net, host, CommonPorts);
    var recs := SocketRecords(net, host);
    forall p | p in CommonPorts && net.connect(host, p) == Open
      ensures exists r :: r in recs && r.port == p
    {
      assert OpenRecord(p) in recs;
    }
  }

  // ---------------------------------------------------------------------
  // nmap port scan (`_scan_ports_with_nmap`)
  // ---------------------------------------------------------------------

  /** The version field: product and version joined by one space. */
  function VersionText(s: NmapService): (v: string)
    ensures |v| == |s.product.GetOr("")| + 1 + |s.version.GetOr("")|
    ensures v[|s.product.GetOr("")|] == ' '
    ensures v[..|s.product.GetOr("")|] == s.product.GetOr("")
    ensures v[|s.product.GetOr("")| + 1..] == s.version.GetOr("")
  {
    s.product.GetOr("") + " " + s.version.GetOr("")
  }

  /** The record appended for one port of an nmap report. */
  function NmapRecord(port: nat, s: NmapService): PortRecord
  {
    PortRecord(port, s.state, s.name, VersionText(s))
  }

  /** Records for the first ports of `order` (the protocol's sorted port list). */
  function PortListRecords(proto: NmapProtocol, order: seq<nat>): seq<PortRecord>
    requires forall p :: p in order ==> p in proto.ports
  {
    if order == [] then []
    else
      var last := order[|order| - 1];
      PortListRecords(proto, order[..|order| - 1]) + [NmapRecord(last, proto.ports[last])]
  }

  /** All records of one protocol, ports ascending. */
  function ProtocolRecords(proto: NmapProtocol): seq<PortRecord>
  {
    PortListRecords(proto, Sorting.Ascending(proto.ports.Keys))
  }

  /** Records of the listed protocols, one protocol after the other. */
  function ProtocolsRecords(protocols: seq<NmapProtocol>): seq<PortRecord>
  {
    if protocols == [] then []
    else ProtocolsRecords(protocols[..|protocols| - 1]) + ProtocolRecords(protocols[|protocols| - 1])
  }

  /** `ports[host]` after the nmap scan, for a host whose scan did not raise. */
  function NmapRecords(reply: NmapReply): seq<PortRecord>
  {
    match reply
    case Scanned(protocols) => ProtocolsRecords(protocols)
    case _ => []
  }

  /** The entries the nmap scan sets: none for a host whose scan raised. */
  function NmapScan(net: Network, hosts: seq<string>): map<string, seq<PortRecord>>
  {
    map h | h in hosts && !net.nmapScan(h).ScanRaised? :: NmapRecords(net.nmapScan(h))
  }

  lemma {:induction false} PortListRecordsSpec(proto: NmapProtocol, order: seq<nat>)
    requires forall p :: p in order ==> p in proto.ports
    ensures |PortListRecords(proto, order)| == |order|
    ensures forall i :: 0 <= i < |order| ==>
      PortListRecords(proto, order)[i] == NmapRecord(order[i], proto.ports[order[i]])
  {
    if order != [] {
      PortListRecordsSpec(proto, order[..|order| - 1]);
    }
  }

  lemma ProtocolRecordsAt(proto: NmapProtocol)
    ensures var order := Sorting.Ascending(proto.ports.Keys);
      |ProtocolRecords(proto)| == |order|
      && forall i :: 0 <= i < |order| ==> ProtocolRecords(proto)[i] == NmapRecord(order[i], proto.ports[order[i]])
  {
    PortListRecordsSpec(proto, Sorting.Ascending(proto.ports.Keys));
  }

  /**
    One protocol's records: one per reported port, ascending, each with the
    reported state and name and the version text built from product and
    version.
   */
  lemma ProtocolRecordsSpec(proto: NmapProtocol)
    ensures var recs := ProtocolRecords(proto);
      && |recs| == |proto.ports|
      && (forall i, j :: 0 <= i < j < |recs| ==> recs[i].port < recs[j].port)
      && (forall p :: p in proto.ports ==> exists r :: r in recs && r.port == p)
      && (forall r :: r in recs ==> r.port in proto.ports && r == NmapRecord(r.port, proto.ports[r.port]))
  {
    ProtocolRecordsOrdered(proto);
    ProtocolRecordsCover(proto);
    ProtocolRecordsFrom(proto);
  }

  lemma ProtocolRecordsOrdered(proto: NmapProtocol)
    ensures var recs := ProtocolRecords(proto);
      && |recs| == |proto.ports|
      && forall i, j :: 0 <= i < j < |recs| ==> recs[i].port < recs[j].port
  {
    var order := Sorting.Ascending(proto.ports.Keys);
    var recs := ProtocolRecords(proto);
    ProtocolRecordsAt(proto);
    assert |order| == |proto.ports.Keys| == |proto.ports|;
    forall i, j | 0 <= i < j < |recs|
      ensures recs[i].port < recs[j].port
    {
      assert recs[i].port == order[i] && recs[j].port == order[j];
    }
  }

  lemma ProtocolRecordsCover(proto: NmapProtocol)
    ensures var recs := ProtocolRecords(proto);
      forall p :: p in proto.ports ==> exists r :: r in recs && r.port == p
  {
    var order := Sorting.Ascending(proto.ports.Keys);
    var recs := ProtocolRecords(proto);
    ProtocolRecordsAt(proto);
    forall p | p in proto.ports
      ensures exists r :: r in recs && r.port == p
    {
      assert p in order;
      var i :| 0 <= i < |order| && order[i] == p;
      assert recs[i].port == p;
    }
  }

  lemma ProtocolRecordsFrom(proto: NmapProtocol)
    ensures var recs := ProtocolRecords(proto);
      forall r :: r in recs ==> r.port in proto.ports && r == NmapRecord(r.port, proto.ports[r.port])
  {
    var order := Sorting.Ascending(proto.ports.Keys);
    var recs := ProtocolRecords(proto);
    ProtocolRecordsAt(proto);
    forall r | r in recs
      ensures r.port in proto.ports && r == NmapRecord(r.port, proto.ports[r.port])
    {
      var i :| 0 <= i < |recs| && recs[i] == r;
      assert order[i] in order;
    }
  }

  /** A port reported with neither product nor version gets the version " ". */
  lemma BareVersion(s: NmapService)
    requires s.product.None? && s.version.None?
    ensures VersionText(s) == " "
  {
  }

  // ---------------------------------------------------------------------
  // Web fingerprinting (`_check_web_service`, `_extract_title`)
  // ---------------------------------------------------------------------

  /** The URL probed for a host and port: https only for port 443. */
  function Url(host: string, port: nat): string
  {
    if port != 443 then "http://" + host + ":" + NatStr(port) else "https://" + host
  }

  /** `_extract_title`: the stripped title text, "No Title" when there is none. */
  function ExtractTitle(title: Option<string>): string
  {
    match title
    case Some(t) => Strip(t)
    case None => "No Title"
  }

  /** The entry `_check_web_service` appends, if any. */
  function WebProbe(net: Network, host: string, port: nat): Option<WebService>
  {
    var url := Url(host, port);
    match net.httpGet(url)
    case RequestFailed => None
    case Response(status, server, title) =>
      if status == 200 then Some(WebService(url, status, server.GetOr("Unknown"), ExtractTitle(title)))
      else None
  }

  /**
    A probe yields an entry exactly when the request got a response with
    status 200; the entry then records the URL, that status, the server
    ("Unknown" when absent) and the page title.
   */
  lemma WebProbeKeeps200(net: Network, host: string, port: nat)
    ensures var reply := net.httpGet(Url(host, port));
      WebProbe(net, host, port).Some? <==> reply.Response? && reply.status == 200
    ensures var reply := net.httpGet(Url(host, port));
      WebProbe(net, host, port).Some? ==>
        WebProbe(net, host, port).value
        == WebService(Url(host, port), 200, reply.server.GetOr("Unknown"), ExtractTitle(reply.title))
  {
  }

  function OptionSeq<T>(o: Option<T>): seq<T>
  {
    match o
    case Some(x) => [x]
    case None => []
  }

  /** The entries of one host over the first web ports in `ports`. */
  function HostWebServices(net: Network, host: string, ports: seq<nat>): seq<WebService>
  {
    if ports == [] then []
    else
      HostWebServices(net, host, ports[..|ports| - 1]) + OptionSeq(WebProbe(net, host, ports[|ports| - 1]))
  }

  /** Every entry of the fingerprinting phase, in submission order. */
  function WebScan(net: Network, hosts: seq<string>): seq<WebService>
  {
    if hosts == [] then []
    else WebScan(net, hosts[..|hosts| - 1]) + HostWebServices(net, hosts[|hosts| - 1], WebPorts)
  }

  lemma {:induction false} HostWebServicesMembers(net: Network, host: string, ports: seq<nat>, w: WebService)
    ensures w in HostWebServices(net, host, ports) <==>
      exists p :: p in ports && WebProbe(net, host, p) == Some(w)
  {
    if ports != [] {
      var init := ports[..|ports| - 1];
      var last := ports[|ports| - 1];
      HostWebServicesMembers(net, host, init, w);
      assert w in HostWebServices(net, host, ports) <==>
        w in HostWebServices(net, host, init) || WebProbe(net, host, last) == Some(w);
      if p :| p in ports && WebProbe(net, host, p) == Some(w) {
        var i :| 0 <= i < |ports| && ports[i] == p;
        if i < |init| {
          assert init[i] == p;
        }
      }
    }
  }

  /** Membership in the entries of a host list, split at its last host. */
  lemma WebScanLast(net: Network, hosts: seq<string>, w: WebService)
    requires hosts != []
    ensures w in WebScan(net, hosts) <==>
      w in WebScan(net, hosts[..|hosts| - 1]) || w in HostWebServices(net, hosts[|hosts| - 1], WebPorts)
  {
  }

  /**
    The fingerprinting phase keeps exactly the successful probes: a service is
    listed iff some host of `hosts` answered it on some web port.
   */
  lemma {:induction false} WebScanMembers(net: Network, hosts: seq<string>, w: WebService)
    ensures w in WebScan(net, hosts) <==>
      exists h, p :: h in hosts && p in WebPorts && WebProbe(net, h, p) == Some(w)
  {
    if hosts != [] {
      var init := hosts[..|hosts| - 1];
      var last := hosts[|hosts| - 1];
      assert hosts == init + [last];
      WebScanMembers(net, init, w);
      HostWebServicesMembers(net, last, WebPorts, w);
      WebScanLast(net, hosts, w);
      if h, p :| h in hosts && p in WebPorts && WebProbe(net, h, p) == Some(w) {
        if h != last {
          assert h in init;
        }
      }
    }
  }

  /**
    What every fingerprinted entry looks like: status 200, the URL of a host of
    `hosts` on one of the four web ports, and the server and title taken from
    the reply with their defaults when it lacks them.
   */
  lemma WebEntries(net: Network, hosts: seq<string>, w: WebService)
    requires w in WebScan(net, hosts)
    ensures w.status == 200
    ensures exists h, p :: h in hosts && p in WebPorts && w.url == Url(h, p)
    ensures net.httpGet(w.url).Response?
    ensures net.httpGet(w.url).status == 200
    ensures w.server == net.httpGet(w.url).server.GetOr("Unknown")
    ensures w.title == ExtractTitle(net.httpGet(w.url).title)
  {
    WebScanMembers(net, hosts, w);
  }

  /**
    Every status-200 reply to a probe of a host of `hosts` on a web port is
    listed, with the reply's server and title.
   */
  lemma WebScanComplete(net: Network, hosts: seq<string>, h: string, p: nat)
    requires h in hosts && p in WebPorts
    requires net.httpGet(Url(h, p)).Response? && net.httpGet(Url(h, p)).status == 200
    ensures var reply := net.httpGet(Url(h, p));
      WebService(Url(h, p), 200, reply.server.GetOr("Unknown"), ExtractTitle(reply.title)) in WebScan(net, hosts)
  {
    var w := WebProbe(net, h, p).value;
    WebScanMembers(net, hosts, w);
  }

  /** Port 443 is probed over https, every other port over http with the port. */
  lemma UrlScheme(host: string, port: nat)
    ensures port == 443 ==> Url(host, port) == "https://" + host
    ensures port != 443 ==> Url(host, port) == "http://" + host + ":" + NatStr(port)
    ensures Url(host, port)[4] == if port == 443 then 's' else ':'
  {
  }

  /**
    Distinct probes have distinct URLs when the host texts hold no ':' (true
    of every dotted-decimal IPv4 address), so no two entries share a URL.
   */
  lemma UrlInjective(h1: string, p1: nat, h2: string, p2: nat)
    requires ':' !in h1 && ':' !in h2
    requires Url(h1, p1) == Url(h2, p2)
    ensures h1 == h2 && p1 == p2
  {
    var u := Url(h1, p1);
    UrlScheme(h1, p1);
    UrlScheme(h2, p2);
    assert u[4] == (if p1 == 443 then 's' else ':');
    assert u[4] == (if p2 == 443 then 's' else ':');
    if p1 == 443 {
      assert h1 == u[8..] == h2;
    } else {
      var t1, t2 := h1 + ":" + NatStr(p1), h2 + ":" + NatStr(p2);
      assert u == "http://" + t1 && u == "http://" + t2;
      assert t1 == u[7..] == t2;
      FirstColon(h1, NatStr(p1), h2, NatStr(p2));
      NatStrInjective(p1, p2);
    }
  }

  lemma FirstColon(h1: string, s1: string, h2: string, s2: string)
    requires ':' !in h1 && ':' !in h2
    requires h1 + ":" + s1 == h2 + ":" + s2
    ensures h1 == h2 && s1 == s2
  {
    var t := h1 + ":" + s1;
    assert t[|h1|] == ':' && t[|h2|] == ':';
    assert forall k :: 0 <= k < |h1| ==> t[k] == h1[k];
    assert forall k :: 0 <= k < |h2| ==> t[k] == h2[k];
    assert |h1| == |h2|;
    assert h1 == t[..|h1|] == h2;
    assert s1 == t[|h1| + 1..] == s2;
  }

  // ---------------------------------------------------------------------
  // The discovery object
  // ---------------------------------------------------------------------

  /** `ports` after `_scan_ports`, from an empty dictionary. */
  function PortScan(net: Network, hosts: seq<string>, nmapAvailable: bool): map<string, seq<PortRecord>>
  {
    if nmapAvailable && net.nmapImportable then NmapScan(net, hosts) else SocketScan(net, hosts)
  }

  /**
    What `_scan_ports` raises: the connect-based scan builds a thread pool for
    each host, so a worker count the pool refuses raises at the first host.
   */
  function PortScanError(net: Network, hosts: seq<string>, nmapAvailable: bool, threads: int): Option<Exception>
  {
    if !(nmapAvailable && net.nmapImportable) && hosts != [] && !PoolAccepts(threads) then Some(ValueError) else None
  }

  /**
    Every port entry, whichever backend ran, belongs to a host of `hosts`; the
    connect-based backend gives every host an entry.
   */
  lemma PortScanKeys(net: Network, hosts: seq<string>, nmapAvailable: bool)
    ensures forall h :: h in PortScan(net, hosts, nmapAvailable) ==> h in hosts
    ensures !(nmapAvailable && net.nmapImportable) ==> forall h :: h in hosts ==> h in PortScan(net, hosts, nmapAvailable)
  {
  }

  class AssetDiscovery {
    const target: string
    const threads: int
    const verbose: bool
    /** Fixed once, when the object is made; the port scan only reads it. */
    const nmapAvailable: bool
    var hosts: seq<string>
    var ports: map<string, seq<PortRecord>>
    var webServices: seq<WebService>

    constructor (target: string, threads: int, verbose: bool, net: Network)
      ensures this.target == target && this.threads == threads && this.verbose == verbose
      ensures nmapAvailable == net.nmapInstalled
      ensures hosts == [] && ports == map[] && webServices == []
    {
      this.target := target;
      this.threads := threads;
      this.verbose := verbose;
      hosts := [];
      ports := map[];
      webServices := [];
      nmapAvailable := net.nmapInstalled;
    }

    /**
      Resolve, then scan ports, then fingerprint web services. A worker count
      the thread pools refuse makes it raise `ValueError`: in the port scan at
      the first host when the connect-based backend runs, else in the web
      fingerprinting.
     */
    method Discover(net: Network) returns (r: Result<DiscoveryResult, Exception>)
      modifies this
      ensures hosts == IdentifiedHosts(net, target, old(hosts))
      ensures PoolAccepts(threads) ==>
        && ports == old(ports) + PortScan(net, hosts, nmapAvailable)
        && multiset(webServices) == multiset(old(webServices)) + multiset(WebScan(net, hosts))
        && r == Ok(DiscoveryResult(hosts, ports, webServices))
      ensures !PoolAccepts(threads) ==>
        && r == Raised(ValueError)
        && webServices == old(webServices)
        && ports == if PortScanError(net, hosts, nmapAvailable, threads).Some? then old(ports)[hosts[0] := []]
                    else old(ports) + PortScan(net, hosts, nmapAvailable)
    {
      IdentifyTargets(net);
      var raised := ScanPorts(net);
      if raised.Some? {
        return Raised(raised.value);
      }
      raised := DiscoverWebServices(net);
      if raised.Some? {
        return Raised(raised.value);
      }
      r := Ok(DiscoveryResult(hosts, ports, webServices));
    }

    /** `_identify_targets`: a caught error leaves `hosts` as it was. */
    method IdentifyTargets(net: Network)
      modifies this`hosts
      ensures hosts == IdentifiedHosts(net, target, old(hosts))
    {
      if '/' in target {
        match net.parseBlock(target)
        case Some(b) =>
          hosts := Ipv4.HostStrings(b);
        case None =>
      } else {
        match net.resolve(target)
        case Some(ip) =>
          hosts := [ip];
        case None =>
      }
    }

    /**
      `_scan_ports`: the backend chosen by the constructor's flag. The
      connect-based backend raises at the first host when the pool refuses
      the worker count, after resetting that host's entry.
     */
    method ScanPorts(net: Network) returns (raised: Option<Exception>)
      modifies this`ports
      ensures raised == PortScanError(net, hosts, nmapAvailable, threads)
      ensures raised.None? ==> ports == old(ports) + PortScan(net, hosts, nmapAvailable)
      ensures raised.Some? ==> ports == old(ports)[hosts[0] := []]
    {
      if nmapAvailable {
        raised := ScanPortsWithNmap(net);
      } else {
        raised := ScanPortsWithSocket(net);
      }
    }

    /** `_scan_ports_with_nmap`, falling back to connects when nmap cannot be imported. */
    method ScanPortsWithNmap(net: Network) returns (raised: Option<Exception>)
      modifies this`ports
      ensures raised == PortScanError(net, hosts, true, threads)
      ensures net.nmapImportable ==> ports == old(ports) + NmapScan(net, hosts)
      ensures !net.nmapImportable && raised.None? ==> ports == old(ports) + SocketScan(net, hosts)
      ensures raised.Some? ==> ports == old(ports)[hosts[0] := []]
    {
      if !net.nmapImportable {
        raised := ScanPortsWithSocket(net);
        return;
      }
      raised := None;
      assert NmapScan(net, hosts[..0]) == map[];
      assert old(ports) + map[] == old(ports);
      for i := 0 to |hosts|
        invariant ports == old(ports) + NmapScan(net, hosts[..i])
      {
        ghost var done := NmapScan(net, hosts[..i]);
        var host := hosts[i];
        NmapHost(net, host);
        NmapScanStep(net, hosts, i);
        if !net.nmapScan(host).ScanRaised? {
          MergeUpdate(old(ports), done, host, NmapRecords(net.nmapScan(host)));
        }
      }
      assert hosts[..|hosts|] == hosts;
    }

    /** One host of the nmap scan: no entry if the scan raised, else its ports protocol by protocol. */
    method NmapHost(net: Network, host: string)
      modifies this`ports
      ensures ports == if net.nmapScan(host).ScanRaised? then old(ports)
                       else old(ports)[host := NmapRecords(net.nmapScan(host))]
    {
      var reply := net.nmapScan(host);
      if reply.ScanRaised? {
        return;
      }
      ports := ports[host := []];
      if reply.Scanned? {
        AppendProtocols(host, reply.protocols);
        EmptyPrefix(ProtocolsRecords(reply.protocols));
      }
    }

    /** The protocol loop of the nmap scan: each protocol's records after the previous ones. */
    method AppendProtocols(host: string, protocols: seq<NmapProtocol>)
      requires host in ports
      modifies this`ports
      ensures ports == old(ports)[host := old(ports)[host] + ProtocolsRecords(protocols)]
    {
      ghost var start := ports[host];
      assert start + ProtocolsRecords(protocols[..0]) == start;
      for k := 0 to |protocols|
        invariant ports == old(ports)[host := start + ProtocolsRecords(protocols[..k])]
      {
        NmapProtocolPorts(host, protocols[k]);
        AppendStep(start, protocols, k);
        UpdateTwice(old(ports), host, start + ProtocolsRecords(protocols[..k]), start + ProtocolsRecords(protocols[..k + 1]));
      }
      assert protocols[..|protocols|] == protocols;
    }

    /** One protocol of a host's nmap report: its ports in ascending order. */
    method NmapProtocolPorts(host: string, proto: NmapProtocol)
      requires host in ports
      modifies this`ports
      ensures ports == old(ports)[host := old(ports)[host] + ProtocolRecords(proto)]
    {
      var lport := Sorting.Ascending(proto.ports.Keys);
      AppendPortList(host, proto, lport);
    }

    /** The inner loop of the nmap scan: one record per port of `order`, in that order. */
    method AppendPortList(host: string, proto: NmapProtocol, order: seq<nat>)
      requires host in ports
      requires forall p :: p in order ==> p in proto.ports
      modifies this`ports
      ensures ports == old(ports)[host := old(ports)[host] + PortListRecords(proto, order)]
    {
      ghost var start := ports[host];
      assert start + PortListRecords(proto, order[..0]) == start;
      for m := 0 to |order|
        invariant ports == old(ports)[host := start + PortListRecords(proto, order[..m])]
      {
        var port := order[m];
        var service := proto.ports[port];
        PortListRecordsSnoc(proto, order, m);
        ghost var done := PortListRecords(proto, order[..m]);
        assert start + done + [NmapRecord(port, service)] == start + (done + [NmapRecord(port, service)]);
        ports := ports[host := ports[host] + [NmapRecord(port, service)]];
      }
      assert order[..|order|] == order;
    }

    /**
      `_scan_ports_with_socket`: every host gets an entry, even an empty one;
      a refused worker count raises at the first host.
     */
    method ScanPortsWithSocket(net: Network) returns (raised: Option<Exception>)
      modifies this`ports
      ensures raised == PortScanError(net, hosts, false, threads)
      ensures raised.None? ==> ports == old(ports) + SocketScan(net, hosts)
      ensures raised.Some? ==> ports == old(ports)[hosts[0] := []]
    {
      assert SocketScan(net, hosts[..0]) == map[];
      assert old(ports) + map[] == old(ports);
      for i := 0 to |hosts|
        invariant ports == old(ports) + SocketScan(net, hosts[..i])
        invariant !PoolAccepts(threads) ==> i == 0
      {
        ghost var done := SocketScan(net, hosts[..i]);
        var host := hosts[i];
        raised := ProbeHost(net, host);
        if raised.Some? {
          return;
        }
        SocketScanStep(net, hosts, i);
        MergeUpdate(old(ports), done, host, SocketRecords(net, host));
      }
      assert hosts[..|hosts|] == hosts;
      raised := None;
    }

    /**
      One host of the fallback scan: reset its entry, build the thread pool
      (which raises for a refused worker count), then append each open port.
     */
    method ProbeHost(net: Network, host: string) returns (raised: Option<Exception>)
      modifies this`ports
      ensures raised == if PoolAccepts(threads) then None else Some(ValueError)
      ensures ports == old(ports)[host := if raised.Some? then [] else SocketRecords(net, host)]
    {
      ports := ports[host := []];
      if !PoolAccepts(threads) {
        return Some(ValueError);
      }
      raised := None;
      for j := 0 to |CommonPorts|
        invariant ports == old(ports)[host := OpenRecords(net, host, CommonPorts[..j])]
      {
        var port := CommonPorts[j];
        var result := net.connect(host, port);
        OpenRecordsSnoc(net, host, CommonPorts, j);
        if result == Open {
          ports := ports[host := ports[host] + [OpenRecord(port)]];
        }
      }
      assert CommonPorts[..|CommonPorts|] == CommonPorts;
    }

    /**
      `_discover_web_services`: only which entries appear is determined, not
      their order. Its thread pool raises for a refused worker count, even
      with no hosts.
     */
    method DiscoverWebServices(net: Network) returns (raised: Option<Exception>)
      modifies this`webServices
      ensures raised == if PoolAccepts(threads) then None else Some(ValueError)
      ensures raised.None? ==> multiset(webServices) == multiset(old(webServices)) + multiset(WebScan(net, hosts))
      ensures raised.Some? ==> webServices == old(webServices)
    {
      if !PoolAccepts(threads) {
        return Some(ValueError);
      }
      raised := None;
      assert old(webServices) + WebScan(net, hosts[..0]) == old(webServices);
      for i := 0 to |hosts|
        invariant webServices == old(webServices) + WebScan(net, hosts[..i])
      {
        FingerprintHost(net, hosts[i]);
        WebScanSnoc(old(webServices), net, hosts, i);
      }
      assert hosts[..|hosts|] == hosts;
    }

    /** The checks submitted for one host, one per web port in order. */
    method FingerprintHost(net: Network, host: string)
      modifies this`webServices
      ensures webServices == old(webServices) + HostWebServices(net, host, WebPorts)
    {
      assert old(webServices) + HostWebServices(net, host, WebPorts[..0]) == old(webServices);
      for j := 0 to |WebPorts|
        invariant webServices == old(webServices) + HostWebServices(net, host, WebPorts[..j])
      {
        CheckWebService(net, host, WebPorts[j]);
        HostWebServicesSnoc(old(webServices), net, host, WebPorts, j);
      }
      assert WebPorts[..|WebPorts|] == WebPorts;
    }

    /** `_check_web_service`: appends an entry only for a status-200 reply. */
    method CheckWebService(net: Network, host: string, port: nat)
      modifies this`webServices
      ensures webServices == old(webServices) + OptionSeq(WebProbe(net, host, port))
      ensures var reply := net.httpGet(Url(host, port));
        if reply.Response? && reply.status == 200
        then webServices == old(webServices) + [WebService(Url(host, port), 200, reply.server.GetOr("Unknown"),
                                                            ExtractTitle(reply.title))]
        else webServices == old(webServices)
    {
      var url := Url(host, port);
      var response := net.httpGet(url);
      match response
      case RequestFailed =>
      case Response(status, server, title) =>
        if status == 200 {
          var webService := WebService(url, status, server.GetOr("Unknown"), ExtractTitle(title));
          webServices := webServices + [webService];
        }
    }
  }

  /** Merging, then overwriting one key, is merging the overwritten map. */
  lemma MergeUpdate<K, V>(a: map<K, V>, b: map<K, V>, k: K, v: V)
    ensures a + b[k := v] == (a + b)[k := v]
  {
  }

  /** Overwriting a key twice keeps the second value. */
  lemma UpdateTwice<K, V>(m: map<K, V>, k: K, a: V, b: V)
    ensures m[k := a][k := b] == m[k := b]
  {
  }

  lemma OpenRecordsSnoc(net: Network, host: string, ports: seq<nat>, j: nat)
    requires j < |ports|
    ensures OpenRecords(net, host, ports[..j + 1])
      == if net.connect(host, ports[j]) == Open then OpenRecords(net, host, ports[..j]) + [OpenRecord(ports[j])]
         else OpenRecords(net, host, ports[..j])
  {
    assert ports[..j + 1][..j] == ports[..j];
    assert OpenRecords(net, host, ports[..j]) + [] == OpenRecords(net, host, ports[..j]);
  }

  lemma PortListRecordsSnoc(proto: NmapProtocol, order: seq<nat>, m: nat)
    requires m < |order| && forall p :: p in order ==> p in proto.ports
    ensures forall p :: p in order[..m] ==> p in proto.ports
    ensures PortListRecords(proto, order[..m + 1])
      == PortListRecords(proto, order[..m]) + [NmapRecord(order[m], proto.ports[order[m]])]
  {
    assert order[..m + 1][..m] == order[..m];
  }

  lemma ProtocolsRecordsSnoc(protocols: seq<NmapProtocol>, k: nat)
    requires k < |protocols|
    ensures ProtocolsRecords(protocols[..k + 1]) == ProtocolsRecords(protocols[..k]) + ProtocolRecords(protocols[k])
  {
    assert protocols[..k + 1][..k] == protocols[..k];
  }

  lemma HostWebServicesSnoc(before: seq<WebService>, net: Network, host: string, ports: seq<nat>, j: nat)
    requires j < |ports|
    ensures before + HostWebServices(net, host, ports[..j]) + OptionSeq(WebProbe(net, host, ports[j]))
      == before + HostWebServices(net, host, ports[..j + 1])
  {
    assert ports[..j + 1][..j] == ports[..j];
  }

  lemma WebScanStep(net: Network, hosts: seq<string>, i: nat)
    requires i < |hosts|
    ensures WebScan(net, hosts[..i + 1]) == WebScan(net, hosts[..i]) + HostWebServices(net, hosts[i], WebPorts)
  {
    assert hosts[..i + 1][..i] == hosts[..i];
  }

  lemma WebScanSnoc(before: seq<WebService>, net: Network, hosts: seq<string>, i: nat)
    requires i < |hosts|
    ensures before + WebScan(net, hosts[..i]) + HostWebServices(net, hosts[i], WebPorts)
      == before + WebScan(net, hosts[..i + 1])
  {
    WebScanStep(net, hosts, i);
    var scanned, added := WebScan(net, hosts[..i]), HostWebServices(net, hosts[i], WebPorts);
    assert before + scanned + added == before + (scanned + added);
  }

  lemma AppendStep(start: seq<PortRecord>, protocols: seq<NmapProtocol>, k: nat)
    requires k < |protocols|
    ensures start + ProtocolsRecords(protocols[..k]) + ProtocolRecords(protocols[k]) == start + ProtocolsRecords(protocols[..k + 1])
  {
    ProtocolsRecordsSnoc(protocols, k);
  }

  lemma EmptyPrefix(s: seq<PortRecord>)
    ensures [] + s == s
  {
  }

  lemma SocketScanStep(net: Network, hosts: seq<string>, i: nat)
    requires i < |hosts|
    ensures SocketScan(net, hosts[..i + 1]) == SocketScan(net, hosts[..i])[hosts[i] := SocketRecords(net, hosts[i])]
  {
    assert hosts[..i + 1] == hosts[..i] + [hosts[i]];
  }

  lemma NmapScanStep(net: Network, hosts: seq<string>, i: nat)
    requires i < |hosts|
    ensures var h := hosts[i];
      NmapScan(net, hosts[..i + 1])
        == if net.nmapScan(h).ScanRaised? then NmapScan(net, hosts[..i])
           else NmapScan(net, hosts[..i])[h := NmapRecords(net.nmapScan(h))]
  {
    assert hosts[..i + 1] == hosts[..i] + [hosts[i]];
  }
}
