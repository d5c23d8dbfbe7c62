/**
  The scan driver: one run goes through asset discovery, the four
  vulnerability checkers and the report, in that fixed order, filling the
  `results` dictionary key by key; the entry point turns the run's outcome
  into the process exit status.
 */
module ScanSayerApp {
  import opened Common
  import opened Environment
  import Discovery
  import opened Report
  import PosixPath

  /** The four vulnerability checkers; each returns its findings or raises. */
  datatype Checkers = Checkers(
    wordpress: seq<Discovery.WebService> -> Result<seq<Finding>, Exception>,
    craftcms: seq<Discovery.WebService> -> Result<seq<Finding>, Exception>,
    smb: seq<Discovery.PortRecord> -> Result<seq<Finding>, Exception>,
    zyxel: seq<Discovery.WebService> -> Result<seq<Finding>, Exception>)

  /** One assignment `results[key] = value`. */
  type Entry = (string, ResultValue)

  /** The files written when an output name is given. */
  datatype SavedReports = SavedReports(jsonPath: string, jsonSaved: bool, htmlPath: string, htmlSaved: bool)

  /** What the checker phases assigned, and the exception that ended them, if any. */
  datatype Phases = Phases(entries: seq<Entry>, failure: Option<Exception>)

  /** What a completed run shows and writes, and how far the progress bar advanced. */
  datatype RunReport = RunReport(console: Summary, saved: Option<SavedReports>, advances: nat)

  /** The keys of `results` in the order the phases fill them. */
  const PhaseKeys: seq<string> := ["hosts", "ports", "web_services", "wordpress", "craftcms", "smb", "zyxel"]

  /** The progress bar's total: five scanning phases and the report. */
  const ProgressTotal: nat := 6

  /** The host whose open ports the SMB checker gets: the first host, else the target as given. */
  function FirstHost(hosts: seq<string>, target: string): string
  {
    if |hosts| > 0 then hosts[0] else target
  }

  /** `ports.get(host, [])`. */
  function SmbInput(ports: map<string, seq<Discovery.PortRecord>>, host: string): seq<Discovery.PortRecord>
  {
    if host in ports then ports[host] else []
  }

  // ---------------------------------------------------------------------
  // The `results` dictionary and its insertion order
  // ---------------------------------------------------------------------

  /** The dictionary after the assignments `entries`, in order. */
  function Apply(m: Results, entries: seq<Entry>): Results
  {
    if entries == [] then m
    else
      var last := entries[|entries| - 1];
      Apply(m, entries[..|entries| - 1])[last.0 := last.1]
  }

  /** A key joins the insertion order the first time it is assigned. */
  function Insert(order: seq<string>, key: string): seq<string>
  {
    if key in order then order else order + [key]
  }

  /** The insertion order after the assignments `entries`. */
  function KeyOrder(order: seq<string>, entries: seq<Entry>): seq<string>
  {
    if entries == [] then order
    else Insert(KeyOrder(order, entries[..|entries| - 1]), entries[|entries| - 1].0)
  }

  /** The keys of the assignments, in order. */
  function EntryKeys(entries: seq<Entry>): (keys: seq<string>)
    ensures |keys| == |entries| && forall i :: 0 <= i < |entries| ==> keys[i] == entries[i].0
  {
    seq(|entries|, i requires 0 <= i < |entries| => entries[i].0)
  }

  /** The key order of a dictionary is its keys: every key once, in first-assignment order. */
  lemma {:induction false} KeyOrderKeys(m: Results, order: seq<string>, entries: seq<Entry>)
    requires forall k :: k in order <==> k in m
    ensures forall k :: k in KeyOrder(order, entries) <==> k in Apply(m, entries)
    ensures order <= KeyOrder(order, entries)
  {
    if entries != [] {
      KeyOrderKeys(m, order, entries[..|entries| - 1]);
    }
  }

  /**
    Assigning keys that are new and distinct appends them to the order in
    assignment order.
   */
  lemma {:induction false} KeyOrderFresh(order: seq<string>, entries: seq<Entry>)
    requires forall i, j :: 0 <= i < j < |entries| ==> entries[i].0 != entries[j].0
    requires forall i :: 0 <= i < |entries| ==> entries[i].0 !in order
    ensures KeyOrder(order, entries) == order + EntryKeys(entries)
  {
    if entries != [] {
      var n := |entries| - 1;
      var init := entries[..n];
      KeyOrderFresh(order, init);
      var key := entries[n].0;
      assert key !in EntryKeys(init);
      assert EntryKeys(entries) == EntryKeys(init) + [key];
    }
  }

  /** The three entries the discovery phase assigns. */
  function DiscoveryEntries(hosts: seq<string>, ports: map<string, seq<Discovery.PortRecord>>,
                            web: seq<Discovery.WebService>): seq<Entry>
  {
    [("hosts", HostList(hosts)), ("ports", PortTable(ports)), ("web_services", ServiceList(web))]
  }

  /** How many of the replies, from the first, did not raise. */
  function Completed(replies: seq<Result<seq<Finding>, Exception>>): (n: nat)
    ensures n <= |replies|
    ensures forall i :: 0 <= i < n ==> replies[i].Ok?
    ensures n < |replies| ==> replies[n].Raised?
  {
    if replies == [] || replies[0].Raised? then 0 else 1 + Completed(replies[1..])
  }

  /** The four checkers' replies, in phase order, for the inputs they are given. */
  function Replies(c: Checkers, web: seq<Discovery.WebService>, smbIn: seq<Discovery.PortRecord>)
    : seq<Result<seq<Finding>, Exception>>
  {
    [c.wordpress(web), c.craftcms(web), c.smb(smbIn), c.zyxel(web)]
  }

  /**
    The checker phases as the run goes through them: WordPress, Craft CMS and
    Zyxel on the web services, SMB on its own input; each checker that returns
    is recorded under its category, and the first one that raises ends them.
   */
  function CheckerPhases(c: Checkers, web: seq<Discovery.WebService>, smbIn: seq<Discovery.PortRecord>)
    : Phases
  {
    match c.wordpress(web)
    case Raised(e) => Phases([], Some(e))
    case Ok(wp) =>
      var done1 := [("wordpress", FindingList(wp))];
      match c.craftcms(web)
      case Raised(e) => Phases(done1, Some(e))
      case Ok(cc) =>
        var done2 := done1 + [("craftcms", FindingList(cc))];
        match c.smb(smbIn)
        case Raised(e) => Phases(done2, Some(e))
        case Ok(sm) =>
          var done3 := done2 + [("smb", FindingList(sm))];
          match c.zyxel(web)
          case Raised(e) => Phases(done3, Some(e))
          case Ok(zy) => Phases(done3 + [("zyxel", FindingList(zy))], None)
  }

  /** The files a completed run writes: none without a (non-empty) output name. */
  function SavesFor(output: Option<string>, canWrite: string -> bool): Option<SavedReports>
  {
    if output.Some? && output.value != "" then
      var htmlPath := PosixPath.HtmlPath(output.value);
      Some(SavedReports(output.value, canWrite(output.value), htmlPath, canWrite(htmlPath)))
    else None
  }

  /**
    The checker phases agree with the general rule: the first `n` replies
    returned, each gives the entry of its category, and the run stops at
    reply `n` with its exception when `n` is less than four.
   */
  lemma CheckerPhasesSpec(c: Checkers, web: seq<Discovery.WebService>, smbIn: seq<Discovery.PortRecord>)
    ensures var replies := Replies(c, web, smbIn);
      var n := Completed(replies);
      CheckerPhases(c, web, smbIn)
        == Phases(seq(n, i requires 0 <= i < n => (Categories[i], FindingList(replies[i].value))),
                  if n < 4 then Some(replies[n].error) else None)
    ensures var entries := CheckerPhases(c, web, smbIn).entries;
      var failure := CheckerPhases(c, web, smbIn).failure;
      && |entries| <= 4
      && (failure.None? <==> |entries| == 4)
      && EntryKeys(entries) == Categories[..|entries|]
  {
    var replies := Replies(c, web, smbIn);
    var n := Completed(replies);
    assert n > 1 ==> replies[1].Ok?;
    assert n > 2 ==> replies[2].Ok?;
    assert n > 3 ==> replies[3].Ok?;
    var entries := CheckerPhases(c, web, smbIn).entries;
    assert |entries| == n;
    assert EntryKeys(entries) == Categories[..n];
  }

  /**
    A run that completes fills, in a fresh dictionary, exactly the seven keys
    in phase order: hosts, ports, web_services, wordpress, craftcms, smb, zyxel.
   */
  lemma CompletedRunKeys(c: Checkers, hosts: seq<string>, ports: map<string, seq<Discovery.PortRecord>>,
                         web: seq<Discovery.WebService>, smbIn: seq<Discovery.PortRecord>)
    requires CheckerPhases(c, web, smbIn).failure.None?
    ensures var entries := DiscoveryEntries(hosts, ports, web) + CheckerPhases(c, web, smbIn).entries;
      && KeyOrder([], entries) == PhaseKeys
      && forall k :: k in Apply(map[], entries) <==> k in PhaseKeys
  {
    CheckerPhasesSpec(c, web, smbIn);
    var checks := CheckerPhases(c, web, smbIn).entries;
    var entries := DiscoveryEntries(hosts, ports, web) + checks;
    assert EntryKeys(checks) == Categories;
    assert EntryKeys(entries) == PhaseKeys by {
      assert forall i :: 3 <= i < 7 ==> entries[i] == checks[i - 3];
    }
    KeyOrderFresh([], entries);
    KeyOrderKeys(map[], [], entries);
  }

  /**
    The SMB checker's input. With no hosts (an unresolvable name or a bad
    block) it is empty, since every port entry belongs to a host; otherwise,
    with the connect-based scan, it is the first host's open ports.
   */
  lemma SmbInputAfterDiscovery(net: Network, target: string, nmapAvailable: bool)
    ensures var hosts := Discovery.IdentifiedHosts(net, target, []);
      var input := SmbInput(Discovery.PortScan(net, hosts, nmapAvailable), FirstHost(hosts, target));
      && (hosts == [] ==> input == [])
      && (hosts != [] && !(nmapAvailable && net.nmapImportable) ==> input == Discovery.SocketRecords(net, hosts[0]))
  {
    var hosts := Discovery.IdentifiedHosts(net, target, []);
    Discovery.PortScanKeys(net, hosts, nmapAvailable);
  }

  /**
    For a host name or address: the first host is its resolved address, or
    the name itself when it cannot be resolved.
   */
  lemma FirstHostOfName(net: Network, target: string)
    requires '/' !in target
    ensures FirstHost(Discovery.IdentifiedHosts(net, target, []), target) == net.resolve(target).GetOr(target)
  {
  }

  /** `main`: 0 after a completed run or Ctrl-C, 1 after any other exception. */
  function ExitStatus(outcome: Result<RunReport, Exception>): (status: int)
    ensures status == 0 || status == 1
    ensures status == 0 <==> outcome.Ok? || outcome.error == KeyboardInterrupt
  {
    match outcome
    case Ok(_) => 0
    case Raised(KeyboardInterrupt) => 0
    case Raised(Error(_)) => 1
  }

  /** Every assignment of a run whose discovery completed, in order. */
  function RunEntries(target: string, net: Network, checkers: Checkers, web: seq<Discovery.WebService>): seq<Entry>
  {
    var hosts := Discovery.IdentifiedHosts(net, target, []);
    var ports := Discovery.PortScan(net, hosts, net.nmapInstalled);
    DiscoveryEntries(hosts, ports, web) + CheckerPhases(checkers, web, SmbInput(ports, FirstHost(hosts, target))).entries
  }

  /**
    The report phase on the final dictionary: the console summary and the
    files written, or `KeyError` when a table row misses an entry.
   */
  function ReportOutcome(target: string, output: Option<string>, scanTime: string, duration: real,
                         canWrite: string -> bool, results: Results, advances: nat): Result<RunReport, Exception>
  {
    match ReportSection(results)
    case None => Raised(KeyError)
    case Some(section) =>
      Ok(RunReport(Summary(target, scanTime, duration, VulnCount(results), section), SavesFor(output, canWrite), advances))
  }

  /**
    The outcome of `run` on a dictionary `before`, when fingerprinting listed
    the web services `web`: `ValueError` when the thread pools refuse the
    worker count; otherwise the first checker exception; otherwise the report,
    or `KeyError` when a table row misses an entry.
   */
  function RunOutcome(target: string, output: Option<string>, threads: int, net: Network, checkers: Checkers,
                      scanTime: string, duration: real, canWrite: string -> bool,
                      before: Results, web: seq<Discovery.WebService>): Result<RunReport, Exception>
  {
    if !PoolAccepts(threads) then Raised(ValueError)
    else
      var hosts := Discovery.IdentifiedHosts(net, target, []);
      var ports := Discovery.PortScan(net, hosts, net.nmapInstalled);
      match CheckerPhases(checkers, web, SmbInput(ports, FirstHost(hosts, target))).failure
      case Some(e) => Raised(e)
      case None =>
        ReportOutcome(target, output, scanTime, duration, canWrite, Apply(before, RunEntries(target, net, checkers, web)),
                      ProgressTotal)
  }

  /** A run whose discovery completed: its entries, and how its outcome follows the checker phases. */
  lemma RunOutcomeAfterDiscovery(target: string, output: Option<string>, threads: int, net: Network, checkers: Checkers,
                                 scanTime: string, duration: real, canWrite: string -> bool,
                                 before: Results, web: seq<Discovery.WebService>)
    requires PoolAccepts(threads)
    ensures var hosts := Discovery.IdentifiedHosts(net, target, []);
      var ports := Discovery.PortScan(net, hosts, net.nmapInstalled);
      var phases := CheckerPhases(checkers, web, SmbInput(ports, FirstHost(hosts, target)));
      var entries := RunEntries(target, net, checkers, web);
      && entries == DiscoveryEntries(hosts, ports, web) + phases.entries
      && RunOutcome(target, output, threads, net, checkers, scanTime, duration, canWrite, before, web)
         == match phases.failure
            case Some(e) => Raised(e)
            case None => ReportOutcome(target, output, scanTime, duration, canWrite, Apply(before, entries), ProgressTotal)
  {
  }

  /**
    The exit status of a run: 1 when the thread pools refuse the worker count;
    otherwise 0 exactly when every checker returned and the report could be
    built, or a checker was interrupted by Ctrl-C.
   */
  lemma RunExitStatus(target: string, output: Option<string>, threads: int, net: Network, checkers: Checkers,
                      scanTime: string, duration: real, canWrite: string -> bool,
                      before: Results, web: seq<Discovery.WebService>)
    ensures !PoolAccepts(threads) ==>
      ExitStatus(RunOutcome(target, output, threads, net, checkers, scanTime, duration, canWrite, before, web)) == 1
    ensures PoolAccepts(threads) ==>
      var hosts := Discovery.IdentifiedHosts(net, target, []);
      var ports := Discovery.PortScan(net, hosts, net.nmapInstalled);
      var failure := CheckerPhases(checkers, web, SmbInput(ports, FirstHost(hosts, target))).failure;
      (ExitStatus(RunOutcome(target, output, threads, net, checkers, scanTime, duration, canWrite, before, web)) == 0
       <==> (failure == Some(KeyboardInterrupt)
             || (failure.None? && ReportSection(Apply(before, RunEntries(target, net, checkers, web))).Some?)))
  {
  }

  lemma SnocAssoc(a: seq<Entry>, b: seq<Entry>, e: Entry)
    ensures a + b + [e] == a + (b + [e])
  {
  }

  lemma EmptyMerge<K, V>(m: map<K, V>)
    ensures map[] + m == m
  {
  }

  lemma {:induction false} ApplySnoc(m: Results, order: seq<string>, entries: seq<Entry>, e: Entry)
    ensures Apply(m, entries + [e]) == Apply(m, entries)[e.0 := e.1]
    ensures KeyOrder(order, entries + [e]) == Insert(KeyOrder(order, entries), e.0)
  {
    assert (entries + [e])[..|entries|] == entries;
  }

  /** Three assignments in a row. */
  lemma ApplyThree(m: Results, order: seq<string>, entries: seq<Entry>)
    requires |entries| == 3
    ensures Apply(m, entries) == m[entries[0].0 := entries[0].1][entries[1].0 := entries[1].1][entries[2].0 := entries[2].1]
    ensures KeyOrder(order, entries) == Insert(Insert(Insert(order, entries[0].0), entries[1].0), entries[2].0)
  {
    ApplySnoc(m, order, [], entries[0]);
    ApplySnoc(m, order, entries[..1], entries[1]);
    ApplySnoc(m, order, entries[..2], entries[2]);
    assert [] + [entries[0]] == entries[..1];
    assert entries[..1] + [entries[1]] == entries[..2];
    assert entries[..2] + [entries[2]] == entries;
  }

  class ScanSayer {
    const target: string
    const output: Option<string>
    const verbose: bool
    const threads: int
    var results: Results
    /** The insertion order of `results`, which the JSON file's key order follows. */
    ghost var keyOrder: seq<string>
    var scanCount: nat

    constructor (target: string, output: Option<string>, verbose: bool, threads: int)
      ensures this.target == target && this.output == output
      ensures this.verbose == verbose && this.threads == threads
      ensures results == map[] && keyOrder == [] && scanCount == 0
    {
      this.target := target;
      this.output := output;
      this.verbose := verbose;
      this.threads := threads;
      results := map[];
      keyOrder := [];
      scanCount := 0;
    }

    /** `results[key] = value`. */
    method SetResult(key: string, value: ResultValue)
      modifies this`results, this`keyOrder
      ensures results == old(results)[key := value]
      ensures keyOrder == Insert(old(keyOrder), key)
    {
      results := results[key := value];
      keyOrder := Insert(keyOrder, key);
    }

    /**
      `run`: discovery, then the WordPress, Craft CMS, SMB and Zyxel checkers,
      then the report. The WordPress, Craft CMS and Zyxel checkers get the web
      services; the SMB checker gets the first host's ports. An exception from
      a checker or from the console report ends the run. `webServices` is the
      web service list in the order the fingerprinting threads appended it.
     */
    method Run(net: Network, checkers: Checkers, scanTime: string, duration: real, canWrite: string -> bool)
      returns (r: Result<RunReport, Exception>, ghost webServices: seq<Discovery.WebService>)
      modifies this`results, this`keyOrder, this`scanCount
      ensures multiset(webServices) == multiset(Discovery.WebScan(net, Discovery.IdentifiedHosts(net, target, [])))
      ensures r == RunOutcome(target, output, threads, net, checkers, scanTime, duration, canWrite, old(results), webServices)
      ensures !PoolAccepts(threads) ==>
        results == old(results) && keyOrder == old(keyOrder) && scanCount == old(scanCount)
      ensures PoolAccepts(threads) ==>
        var entries := RunEntries(target, net, checkers, webServices);
        && results == Apply(old(results), entries)
        && keyOrder == KeyOrder(old(keyOrder), entries)
        && scanCount == old(scanCount) + |entries| - 2  // one for discovery's three entries, one per checker
      ensures r.Ok? ==> scanCount == old(scanCount) + 5 && r.value.advances == ProgressTotal
    {
      // 1. asset discovery; `hosts`, `ports` and `web` are the values just stored under
      // "hosts", "ports" and "web_services", which the later phases read back
      var raisedInDiscovery, hosts, ports, web := DiscoveryPhase(net);
      if raisedInDiscovery.Some? {
        return Raised(raisedInDiscovery.value), Discovery.WebScan(net, hosts);
      }
      webServices := web;
      r := CheckersAndReport(checkers, hosts, ports, web, scanTime, duration, canWrite, old(results), old(keyOrder));
      RunOutcomeAfterDiscovery(target, output, threads, net, checkers, scanTime, duration, canWrite, old(results), web);
    }

    /**
      Phases 2 to 6 of `run`, after discovery recorded `hosts`, `ports` and
      `web`: the checkers (SMB gets the open ports of the first host) and then
      the report, which follows only when no checker raised.
     */
    method CheckersAndReport(checkers: Checkers, hosts: seq<string>, ports: map<string, seq<Discovery.PortRecord>>,
                             web: seq<Discovery.WebService>, scanTime: string, duration: real, canWrite: string -> bool,
                             ghost base: Results, ghost order: seq<string>)
      returns (r: Result<RunReport, Exception>)
      requires results == Apply(base, DiscoveryEntries(hosts, ports, web))
      requires keyOrder == KeyOrder(order, DiscoveryEntries(hosts, ports, web))
      modifies this`results, this`keyOrder, this`scanCount
      ensures var phases := CheckerPhases(checkers, web, SmbInput(ports, FirstHost(hosts, target)));
        var entries := DiscoveryEntries(hosts, ports, web) + phases.entries;
        && results == Apply(base, entries)
        && keyOrder == KeyOrder(order, entries)
        && scanCount == old(scanCount) + |phases.entries|
        && r == match phases.failure
                case Some(e) => Raised(e)
                case None => ReportOutcome(target, output, scanTime, duration, canWrite, results, ProgressTotal)
      ensures r.Ok? ==> scanCount == old(scanCount) + 4
    {
      var advances := 1;  // discovery's advance

      // 2. to 5. the checkers
      var openPorts := SmbInput(ports, FirstHost(hosts, target));
      var raised, completed, checks := RunCheckers(checkers, web, openPorts, base, order,
                                                   DiscoveryEntries(hosts, ports, web));
      if raised.Some? {
        return Raised(raised.value);
      }
      advances := advances + completed;

      // 6. the report
      r := ReportPhase(scanTime, duration, canWrite);
      if r.Ok? {
        advances := advances + 1;
        r := Ok(r.value.(advances := advances));
      }
      assert r == ReportOutcome(target, output, scanTime, duration, canWrite, results, ProgressTotal);
    }

    /**
      Phases 2 to 5: the WordPress, Craft CMS, SMB and Zyxel checkers in that
      order, each recorded after the assignments `done`, until one raises.
     */
    method RunCheckers(checkers: Checkers, web: seq<Discovery.WebService>, openPorts: seq<Discovery.PortRecord>,
                       ghost base: Results, ghost order: seq<string>, ghost done: seq<Entry>)
      returns (raised: Option<Exception>, completed: nat, ghost checks: seq<Entry>)
      requires results == Apply(base, done) && keyOrder == KeyOrder(order, done)
      modifies this`results, this`keyOrder, this`scanCount
      ensures CheckerPhases(checkers, web, openPorts) == Phases(checks, raised)
      ensures completed == |checks|
      ensures results == Apply(base, done + checks) && keyOrder == KeyOrder(order, done + checks)
      ensures scanCount == old(scanCount) + completed
    {
      checks := [];
      completed := 0;
      assert done + checks == done;
      ghost var entry: Entry;

      raised, entry := CheckPhase("wordpress", checkers.wordpress(web), base, order, done);
      if raised.Some? {
        return;
      }
      checks := [entry];
      completed := 1;

      raised, entry := CheckPhase("craftcms", checkers.craftcms(web), base, order, done + checks);
      if raised.Some? {
        return;
      }
      SnocAssoc(done, checks, entry);
      checks := checks + [entry];
      completed := 2;

      raised, entry := CheckPhase("smb", checkers.smb(openPorts), base, order, done + checks);
      if raised.Some? {
        return;
      }
      SnocAssoc(done, checks, entry);
      checks := checks + [entry];
      completed := 3;

      raised, entry := CheckPhase("zyxel", checkers.zyxel(web), base, order, done + checks);
      if raised.Some? {
        return;
      }
      SnocAssoc(done, checks, entry);
      checks := checks + [entry];
      completed := 4;
    }

    /**
      Phase 1: discover the assets and record hosts, ports and web services.
      When discovery raises, nothing is recorded.
     */
    method DiscoveryPhase(net: Network)
      returns (raised: Option<Exception>, hosts: seq<string>, ports: map<string, seq<Discovery.PortRecord>>,
               web: seq<Discovery.WebService>)
      modifies this`results, this`keyOrder, this`scanCount
      ensures raised == if PoolAccepts(threads) then None else Some(ValueError)
      ensures hosts == Discovery.IdentifiedHosts(net, target, [])
      ensures raised.None? ==>
        && ports == Discovery.PortScan(net, hosts, net.nmapInstalled)
        && multiset(web) == multiset(Discovery.WebScan(net, hosts))
        && results == Apply(old(results), DiscoveryEntries(hosts, ports, web))
        && keyOrder == KeyOrder(old(keyOrder), DiscoveryEntries(hosts, ports, web))
        && scanCount == old(scanCount) + 1
      ensures raised.Some? ==> results == old(results) && keyOrder == old(keyOrder) && scanCount == old(scanCount)
    {
      var assetDiscovery := new Discovery.AssetDiscovery(target, threads, verbose, net);
      var discovery := assetDiscovery.Discover(net);
      hosts := assetDiscovery.hosts;
      if discovery.Raised? {
        return Some(discovery.error), hosts, map[], [];
      }
      raised := None;
      ports, web := discovery.value.ports, discovery.value.webServices;
      EmptyMerge(Discovery.PortScan(net, hosts, net.nmapInstalled));
      RecordDiscovery(hosts, ports, web);
    }

    /** The three assignments of phase 1, and the phase count. */
    method RecordDiscovery(hosts: seq<string>, ports: map<string, seq<Discovery.PortRecord>>,
                           web: seq<Discovery.WebService>)
      modifies this`results, this`keyOrder, this`scanCount
      ensures results == Apply(old(results), DiscoveryEntries(hosts, ports, web))
      ensures keyOrder == KeyOrder(old(keyOrder), DiscoveryEntries(hosts, ports, web))
      ensures scanCount == old(scanCount) + 1
    {
      SetResult("hosts", HostList(hosts));
      SetResult("ports", PortTable(ports));
      SetResult("web_services", ServiceList(web));
      scanCount := scanCount + 1;
      ApplyThree(old(results), old(keyOrder), DiscoveryEntries(hosts, ports, web));
    }

    /**
      Phases 2 to 5: one checker's reply. Unless it raised, its findings are
      recorded under `key` after the assignments `done`, and the phase counts.
     */
    method CheckPhase(key: string, reply: Result<seq<Finding>, Exception>,
                      ghost base: Results, ghost order: seq<string>, ghost done: seq<Entry>)
      returns (raised: Option<Exception>, ghost entry: Entry)
      requires results == Apply(base, done) && keyOrder == KeyOrder(order, done)
      modifies this`results, this`keyOrder, this`scanCount
      ensures raised == if reply.Raised? then Some(reply.error) else None
      ensures reply.Raised? ==> results == old(results) && keyOrder == old(keyOrder) && scanCount == old(scanCount)
      ensures reply.Ok? ==> && entry == (key, FindingList(reply.value))
                            && results == Apply(base, done + [entry])
                            && keyOrder == KeyOrder(order, done + [entry])
                            && scanCount == old(scanCount) + 1
    {
      entry := (key, FindingList([]));
      match reply
      case Raised(e) =>
        raised := Some(e);
      case Ok(findings) =>
        entry := (key, FindingList(findings));
        SetResult(key, FindingList(findings));
        ApplySnoc(base, order, done, entry);
        scanCount := scanCount + 1;
        raised := None;
    }

    /** Phase 6: the console report, then both files when an output name is given. */
    method ReportPhase(scanTime: string, duration: real, canWrite: string -> bool) returns (r: Result<RunReport, Exception>)
      ensures r == ReportOutcome(target, output, scanTime, duration, canWrite, results, 0)
    {
      var reportGenerator := new ReportGenerator(target, results, scanTime, duration);
      var console := reportGenerator.DisplayConsoleReport();
      if console.Raised? {
        return Raised(console.error);
      }
      var saved: Option<SavedReports> := None;
      if output.Some? && output.value != "" {
        var jsonSaved, jsonWritten := reportGenerator.SaveJsonReport(output.value, canWrite(output.value));
        var htmlOutput := PosixPath.HtmlPath(output.value);
        var htmlSaved, htmlWritten := reportGenerator.SaveHtmlReport(htmlOutput, canWrite(htmlOutput));
        saved := Some(SavedReports(output.value, jsonSaved, htmlOutput, htmlSaved));
      }
      r := Ok(RunReport(console.value, saved, 0));
    }
  }

  /**
    `main`: build the scanner from the arguments, run it, and map the outcome
    to the exit status.
   */
  method ScanMain(target: string, output: Option<string>, verbose: bool, threads: int,
                  net: Network, checkers: Checkers, scanTime: string, duration: real, canWrite: string -> bool)
    returns (outcome: Result<RunReport, Exception>, status: int)
    ensures exists web ::
      && multiset(web) == multiset(Discovery.WebScan(net, Discovery.IdentifiedHosts(net, target, [])))
      && outcome == RunOutcome(target, output, threads, net, checkers, scanTime, duration, canWrite, map[], web)
    ensures status == ExitStatus(outcome)
    ensures outcome.Ok? ==> outcome.value.advances == ProgressTotal
  {
    var scanner := new ScanSayer(target, output, verbose, threads);
    ghost var webServices;
    outcome, webServices := scanner.Run(net, checkers, scanTime, duration, canWrite);
    status := ExitStatus(outcome);
  }
}
