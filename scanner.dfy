/**
 * The scan engine: parsing the host list and the port range, the host x port
 * product, probing one target, the two port-to-service tables, and the scan
 * that keeps the open results.
 *
 * The network is an `Environment`: whether a TCP dial to an address succeeds
 * within its timeout, and the two knowledge-base lookups, are functions given
 * to the model rather than computed by it.
 */
module PortScanner {
  import opened Wrappers
  import opened Strings
  import opened Strconv
  import opened Types

  const OPEN := "open"
  const CLOSED := "closed"

  /** What the vulnerability lookup returns for a port and its service. */
  datatype VulnInfo = VulnInfo(cves: seq<CVEInfo>, mitre: seq<MITREInfo>, fstec: seq<FSTECInfo>)

  /** The collaborators the scan consults and cannot see into. */
  datatype Environment = Environment(
    dial: string -> bool,                                 // a TCP connection to the address opens within 5 s
    vulnerabilities: (int, string) -> VulnInfo,           // getVulnerabilityInfo(port, service)
    penTestCommands: (int, string, string) -> seq<string>) // getPenTestCommands(port, service, ip)

  /** One probe task: a host and a port. */
  datatype Target = Target(ip: string, port: int)

  /** The three fatal configuration errors of `Scan`. */
  datatype ScanError = InvalidRangeFormat | InvalidStartPort | InvalidEndPort

  // ---------------------------------------------------------------------------
  // Target expansion
  // ---------------------------------------------------------------------------

  /**
   * The port-range string `start-end`: it must split on `-` into exactly two
   * pieces, each accepted by `Atoi`. A start above the end is not an error.
   */
  function ParseRange(portsStr: string): (r: Result<(int, int), ScanError>)
    ensures r == Failure(InvalidRangeFormat) <==> |Split(portsStr, '-')| != 2
    ensures r == Failure(InvalidStartPort) <==>
      |Split(portsStr, '-')| == 2 && Atoi(Split(portsStr, '-')[0]).None?
    ensures r == Failure(InvalidEndPort) <==>
      |Split(portsStr, '-')| == 2 && Atoi(Split(portsStr, '-')[0]).Some?
      && Atoi(Split(portsStr, '-')[1]).None?
    ensures r.Success? ==> Occurrences(portsStr, '-') == 1
    ensures r.Success? ==> 0 <= r.value.0 <= MaxInt64 && 0 <= r.value.1 <= MaxInt64
    ensures r.Success? ==>
      r.value == (Atoi(Split(portsStr, '-')[0]).value, Atoi(Split(portsStr, '-')[1]).value)
  {
    var parts := Split(portsStr, '-');
    if |parts| != 2 then Failure(InvalidRangeFormat)
    else
      match Atoi(parts[0])
      case None => Failure(InvalidStartPort)
      case Some(start) =>
        match Atoi(parts[1])
        case None => Failure(InvalidEndPort)
        case Some(end) => Success((start, end))
  }

  /** A range written with two decimal numbers parses back to those numbers. */
  lemma ParseRangeRoundTrip(start: nat, end: nat)
    requires start <= MaxInt64 && end <= MaxInt64
    ensures ParseRange(Itoa(start) + "-" + Itoa(end)) == Success((start, end))
  {
    var parts := [Itoa(start), Itoa(end)];
    assert Join(parts, '-') == Itoa(start) + "-" + Itoa(end);
    ItoaCharacters(start, '-');
    ItoaCharacters(end, '-');
    SplitJoin(parts, '-');
    AtoiItoa(start);
    AtoiItoa(end);
  }

  /** A start above the end is accepted, and then no port is added. */
  lemma ReversedRangeAccepted()
    ensures ParseRange("100-50") == Success((100, 50))
    ensures PortRange(100, 50) == []
  {
    assert Itoa(100) == "100" by {
      assert Decimal(1) == "1";
      assert Decimal(10) == "10";
    }
    assert Itoa(50) == "50";
    assert Itoa(100) + "-" + Itoa(50) == "100-50";
    ParseRangeRoundTrip(100, 50);
  }

  /**
   * The ports from `start` to `end` inclusive, in increasing order: the loop
   * as it is evidently meant, with no 64-bit wrap-around.
   */
  function PortRange(start: int, end: int): (ports: seq<int>)
    ensures |ports| == if start > end then 0 else end - start + 1
    ensures forall k :: 0 <= k < |ports| ==> ports[k] == start + k
    decreases end - start
  {
    if start > end then [] else [start] + PortRange(start + 1, end)
  }

  /** The range grows at its top end. */
  lemma {:induction false} PortRangeSnoc(start: int, end: int)
    requires start <= end
    ensures PortRange(start, end) == PortRange(start, end - 1) + [end]
    decreases end - start
  {
    if start < end {
      PortRangeSnoc(start + 1, end);
    }
  }

  /** The probe tasks of one host, in port order. */
  function Row(ip: string, ports: seq<int>): (row: seq<Target>)
    ensures |row| == |ports|
  {
    if ports == [] then [] else Row(ip, ports[..|ports| - 1]) + [Target(ip, ports[|ports| - 1])]
  }

  /** The host x port product, host by host, in the order the scan starts the tasks. */
  function Targets(ips: seq<string>, ports: seq<int>): (ts: seq<Target>)
    ensures |ts| == |ips| * |ports|
  {
    if ips == [] then []
    else
      var init := ips[..|ips| - 1];
      assert |ips| * |ports| == |init| * |ports| + |ports| by {
        assert |ips| == |init| + 1;
      }
      Targets(init, ports) + Row(ips[|ips| - 1], ports)
  }

  lemma {:induction false} RowMembers(ip: string, ports: seq<int>, t: Target)
    ensures t in Row(ip, ports) <==> t.ip == ip && t.port in ports
  {
    if ports != [] {
      var init := ports[..|ports| - 1];
      RowMembers(ip, init, t);
      assert ports == init + [ports[|ports| - 1]];
    }
  }

  /** The tasks are exactly the hosts paired with the ports. */
  lemma {:induction false} TargetsMembers(ips: seq<string>, ports: seq<int>, t: Target)
    ensures t in Targets(ips, ports) <==> t.ip in ips && t.port in ports
  {
    if ips != [] {
      var init := ips[..|ips| - 1];
      var last := ips[|ips| - 1];
      TargetsMembers(init, ports, t);
      RowMembers(last, ports, t);
      assert ips == init + [last];
    }
  }

  /** A host's tasks repeat a port as often as `ports` does. */
  lemma {:induction false} RowMultiplicity(ip: string, ports: seq<int>, t: Target)
    ensures multiset(Row(ip, ports))[t] == if t.ip == ip then multiset(ports)[t.port] else 0
  {
    if ports != [] {
      var init := ports[..|ports| - 1];
      var last := ports[|ports| - 1];
      RowMultiplicity(ip, init, t);
      assert ports == init + [last];
      assert multiset(ports)[t.port] == multiset(init)[t.port] + (if last == t.port then 1 else 0);
    }
  }

  /** The arithmetic of one more host in `TargetsMultiplicity`. */
  lemma CountStep(total: nat, count: nat, a: nat, b: nat, hit: bool)
    requires count == a + if hit then 1 else 0
    requires total == a * b + if hit then b else 0
    ensures total == count * b
  {
  }

  /**
   * The nested loops start a (host, port) task as many times as the host occurs
   * in `IPs` times the number of times the port occurs in `Ports`.
   */
  lemma {:induction false} TargetsMultiplicity(ips: seq<string>, ports: seq<int>, t: Target)
    ensures multiset(Targets(ips, ports))[t] == multiset(ips)[t.ip] * multiset(ports)[t.port]
  {
    if ips != [] {
      var init := ips[..|ips| - 1];
      var last := ips[|ips| - 1];
      var a, b := multiset(init)[t.ip], multiset(ports)[t.port];
      assert multiset(ips)[t.ip] == a + (if last == t.ip then 1 else 0) by {
        assert ips == init + [last];
      }
      assert multiset(Targets(ips, ports))[t] == a * b + (if last == t.ip then b else 0) by {
        assert Targets(ips, ports) == Targets(init, ports) + Row(last, ports);
        TargetsMultiplicity(init, ports, t);
        RowMultiplicity(last, ports, t);
      }
      CountStep(multiset(Targets(ips, ports))[t], multiset(ips)[t.ip], a, b, last == t.ip);
    }
  }

  // ---------------------------------------------------------------------------
  // Service classification
  // ---------------------------------------------------------------------------

  /** The table of `detectService`. */
  const DetectServiceTable: map<int, string> := map[
    20 := "FTP-DATA",
    21 := "FTP",
    22 := "SSH",
    23 := "Telnet",
    25 := "SMTP",
    53 := "DNS",
    80 := "HTTP",
    110 := "POP3",
    143 := "IMAP",
    443 := "HTTPS",
    3306 := "MySQL",
    5432 := "PostgreSQL",
    8080 := "HTTP-Proxy",
    9929 := "Nping-echo"
  ]

  /** `detectService`: the table's name for a listed port, "unknown" otherwise. */
  function DetectService(port: int): (name: string)
    ensures port in DetectServiceTable ==> name == DetectServiceTable[port]
    ensures name == "unknown" <==> port !in DetectServiceTable
  {
    if port in DetectServiceTable then DetectServiceTable[port] else "unknown"
  }

  predicate HasPrefix(s: string, prefix: string) {
    |prefix| <= |s| && s[..|prefix|] == prefix
  }

  lemma NoPrefix(s: string, prefix: string)
    requires |s| > 0 && |prefix| > 0 && s[0] != prefix[0]
    ensures !HasPrefix(s, prefix)
  {
  }

  const UNKNOWN := "Unknown"
  const BannerPrefix := "Unknown (Banner: "
  /** Size of the buffer the banner is read into. */
  const BannerBufferSize := 1024

  /** The `case` lines of `identifyService`: the name for a listed port. */
  function WellKnownService(port: int): (name: Option<string>)
    ensures name.Some? ==> |name.value| > 0 && name.value[0] != 'U'
  {
    match port
    case 20 | 21 => Some("FTP")
    case 22 => Some("SSH")
    case 23 => Some("Telnet")
    case 25 => Some("SMTP")
    case 53 => Some("DNS")
    case 67 | 68 => Some("DHCP")
    case 69 => Some("TFTP")
    case 80 => Some("HTTP")
    case 110 => Some("POP3")
    case 123 => Some("NTP")
    case 135 => Some("RPC")
    case 139 | 445 => Some("SMB")
    case 143 => Some("IMAP")
    case 161 | 162 => Some("SNMP")
    case 389 => Some("LDAP")
    case 443 => Some("HTTPS")
    case 465 => Some("SMTPS")
    case 500 => Some("ISAKMP")
    case 514 => Some("Syslog")
    case 587 => Some("SMTP (Submission)")
    case 636 => Some("LDAPS")
    case 993 => Some("IMAPS")
    case 995 => Some("POP3S")
    case 1080 => Some("SOCKS")
    case 1194 => Some("OpenVPN")
    case 1433 | 1434 => Some("MSSQL")
    case 1521 => Some("Oracle")
    case 1723 => Some("PPTP")
    case 2049 => Some("NFS")
    case 2181 => Some("ZooKeeper")
    case 3128 => Some("Squid")
    case 3306 => Some("MySQL")
    case 3389 => Some("RDP")
    case 5432 => Some("PostgreSQL")
    case 5900 => Some("VNC")
    case 5938 => Some("TeamViewer")
    case 5984 => Some("CouchDB")
    case 6379 => Some("Redis")
    case 8080 => Some("HTTP Proxy")
    case 8443 => Some("HTTPS Alt")
    case 8888 => Some("HTTP Alt")
    case 9000 => Some("Jenkins")
    case 9090 => Some("HTTP Alt")
    case 9200 | 9300 => Some("Elasticsearch")
    case 9929 => Some("Nping-echo")
    case 11211 => Some("Memcached")
    case 27017 | 27018 | 27019 => Some("MongoDB")
    case 50070 | 50075 => Some("Hadoop")
    case _ => None
  }

  /**
   * The banner read on the open connection: the text waiting on the socket
   * when the two-second read deadline is set, and whether the read failed.
   */
  datatype BannerRead = BannerRead(pending: string, failed: bool)

  /** What one read into the 1024-byte buffer delivers. */
  function Received(read: BannerRead): (text: string)
    ensures |text| <= BannerBufferSize && |text| <= |read.pending|
    ensures text == read.pending[..|text|]
  {
    if |read.pending| <= BannerBufferSize then read.pending else read.pending[..BannerBufferSize]
  }

  /** The banner a service name was built from, if it has the shape "Unknown (Banner: ...)". */
  function BannerOf(service: string): Option<string> {
    if |service| >= |BannerPrefix| + 1 && HasPrefix(service, BannerPrefix) && service[|service| - 1] == ')'
    then Some(service[|BannerPrefix|..|service| - 1])
    else None
  }

  /**
   * `identifyService`: the table decides whenever the port is listed; only
   * otherwise is a banner read, and its text, when at least one byte arrived
   * without error, is embedded in the name.
   */
  function IdentifyService(port: int, read: BannerRead): (name: string)
    ensures WellKnownService(port).Some? ==> name == WellKnownService(port).value
    ensures HasPrefix(name, UNKNOWN) <==> WellKnownService(port).None?
    ensures WellKnownService(port).None? && (read.failed || |Received(read)| == 0) ==> name == UNKNOWN
    ensures BannerOf(name) ==
      if WellKnownService(port).None? && !read.failed && |Received(read)| > 0
      then Some(Received(read)) else None
  {
    match WellKnownService(port)
    case Some(known) =>
      NoPrefix(known, UNKNOWN);
      NoPrefix(known, BannerPrefix);
      known
    case None =>
      var text := Received(read);
      if !read.failed && |text| > 0 then BannerPrefix + text + ")" else UNKNOWN
  }

  /** On a listed port the banner makes no difference. */
  lemma {:induction false} TablePrecedesBanner(port: int, read1: BannerRead, read2: BannerRead)
    requires WellKnownService(port).Some?
    ensures IdentifyService(port, read1) == IdentifyService(port, read2)
  {
  }

  /** Where both tables list a port, they agree on its name, except on 20 and 8080. */
  lemma ClassifiersAgree(port: int, read: BannerRead)
    ensures port in DetectServiceTable && port != 20 && port != 8080 ==>
      IdentifyService(port, read) == DetectService(port)
  {
    if port in DetectServiceTable && port != 20 && port != 8080 {
      assert port in {21, 22, 23, 25, 53, 80, 110, 143, 443, 3306, 5432, 9929};
      assert WellKnownService(port) == Some(DetectServiceTable[port]);
    }
  }

  /** On ports 20 and 8080 the two tables give different names. */
  lemma ClassifiersDiffer(read: BannerRead)
    ensures DetectService(20) == "FTP-DATA" && IdentifyService(20, read) == "FTP"
    ensures DetectService(8080) == "HTTP-Proxy" && IdentifyService(8080, read) == "HTTP Proxy"
  {
    assert WellKnownService(20) == Some("FTP");
    assert WellKnownService(8080) == Some("HTTP Proxy");
  }

  /** Where neither table lists a port, the two fallbacks differ. */
  lemma FallbacksDiffer(port: int, read: BannerRead)
    ensures port !in DetectServiceTable && WellKnownService(port).None? ==>
      DetectService(port) != IdentifyService(port, read)
  {
    if port !in DetectServiceTable && WellKnownService(port).None? {
      assert HasPrefix(IdentifyService(port, read), UNKNOWN);
      assert "unknown"[0] != UNKNOWN[0];
    }
  }

  // ---------------------------------------------------------------------------
  // Probing one target
  // ---------------------------------------------------------------------------

  /** `fmt.Sprintf("%s:%d", ip, port)`, the address dialled. */
  function Address(ip: string, port: int): string {
    ip + ":" + Itoa(port)
  }

  /**
   * The address names its host and port unambiguously: split at its one
   * colon it gives the host and the rendered port, which parses back.
   */
  lemma AddressParts(ip: string, port: int)
    requires ':' !in ip && InInt64(port)
    ensures Split(Address(ip, port), ':') == [ip, Itoa(port)]
    ensures Atoi(Split(Address(ip, port), ':')[1]) == Some(port)
  {
    ItoaCharacters(port, ':');
    assert Join([ip, Itoa(port)], ':') == Address(ip, port);
    SplitJoin([ip, Itoa(port)], ':');
    AtoiItoa(port);
  }

  predicate Reachable(env: Environment, t: Target) {
    env.dial(Address(t.ip, t.port))
  }

  /** A result whose state is "open" or "closed", and a closed one carries nothing else. */
  predicate WellFormed(r: ScanResult) {
    && (r.state == OPEN || r.state == CLOSED)
    && (r.state == CLOSED ==>
          r.service == "" && r.cves == [] && r.mitre == [] && r.fstec == [] && r.penTestCommands == [])
  }

  /** `scanPort`: dial the target; classify and look up only when the dial succeeds. */
  function ScanPort(ip: string, port: int, env: Environment): (r: ScanResult)
    ensures r.ip == ip && r.port == port
    ensures WellFormed(r)
    ensures r.state == OPEN <==> Reachable(env, Target(ip, port))
    ensures r.state == OPEN ==>
      && r.service == DetectService(port)
      && r.cves == env.vulnerabilities(port, r.service).cves
      && r.mitre == env.vulnerabilities(port, r.service).mitre
      && r.fstec == env.vulnerabilities(port, r.service).fstec
      && r.penTestCommands == env.penTestCommands(port, r.service, ip)
  {
    if !env.dial(Address(ip, port)) then
      ScanResult(ip, port, CLOSED, "", [], [], [], [])
    else
      var service := DetectService(port);
      var info := env.vulnerabilities(port, service);
      ScanResult(ip, port, OPEN, service, info.cves, info.mitre, info.fstec,
                 env.penTestCommands(port, service, ip))
  }

  /** Results of different targets differ. */
  lemma ScanPortDeterminesTarget(t1: Target, t2: Target, env: Environment)
    ensures ScanPort(t1.ip, t1.port, env) == ScanPort(t2.ip, t2.port, env) <==> t1 == t2
  {
    var r1, r2 := ScanPort(t1.ip, t1.port, env), ScanPort(t2.ip, t2.port, env);
    if r1 == r2 {
      assert t1.ip == r1.ip == r2.ip == t2.ip;
    }
  }

  // ---------------------------------------------------------------------------
  // Aggregation
  // ---------------------------------------------------------------------------

  /** The results of the tasks `ts` that came back open, in task order. */
  function OpenResults(ts: seq<Target>, env: Environment): (rs: seq<ScanResult>)
    ensures |rs| <= |ts|
    ensures forall k :: 0 <= k < |rs| ==> rs[k].state == OPEN && WellFormed(rs[k])
  {
    if ts == [] then []
    else
      var t := ts[|ts| - 1];
      var r := ScanPort(t.ip, t.port, env);
      var init := OpenResults(ts[..|ts| - 1], env);
      if r.state == OPEN then init + [r] else init
  }

  lemma ConcatAssociative<T>(x: seq<T>, y: seq<T>, z: seq<T>)
    ensures x + y + z == x + (y + z)
  {
  }

  lemma {:induction false} OpenResultsAppend(a: seq<Target>, b: seq<Target>, env: Environment)
    ensures OpenResults(a + b, env) == OpenResults(a, env) + OpenResults(b, env)
    decreases |b|
  {
    if b == [] {
      assert a + b == a;
    } else {
      var init, last := b[..|b| - 1], b[|b| - 1];
      assert b == init + [last];
      assert a + b == (a + init) + [last];
      OpenResultsAppend(a, init, env);
      OpenResultsNext(a + init, last, env);
      OpenResultsNext(init, last, env);
      var r := ScanPort(last.ip, last.port, env);
      if r.state == OPEN {
        ConcatAssociative(OpenResults(a, env), OpenResults(init, env), [r]);
      }
    }
  }


  /** The open results do not depend on the order the tasks finish in. */
  lemma {:induction false} OpenResultsPermutation(a: seq<Target>, b: seq<Target>, env: Environment)
    requires multiset(a) == multiset(b)
    ensures multiset(OpenResults(a, env)) == multiset(OpenResults(b, env))
    decreases |a|
  {
    if a != [] {
      var init := a[..|a| - 1];
      var t := a[|a| - 1];
      assert a == init + [t];
      assert t in multiset(b);
      var k :| 0 <= k < |b| && b[k] == t;
      var rest := b[..k] + b[k + 1..];
      assert multiset(init) == multiset(rest) by {
        assert b == b[..k] + [t] + b[k + 1..];
        assert multiset(a) == multiset(init) + multiset{t};
        assert multiset(b) == multiset(rest) + multiset{t};
        MultisetCancel(multiset(init), multiset(rest), t);
      }
      OpenResultsPermutation(init, rest, env);
      OpenResultsAppend(init, [t], env);
      OpenResultsRemove(b, k, env);
    } else {
      assert b == [];
    }
  }

  lemma MultisetCancel<T>(m1: multiset<T>, m2: multiset<T>, t: T)
    requires m1 + multiset{t} == m2 + multiset{t}
    ensures m1 == m2
  {
    forall x ensures m1[x] == m2[x] {
      assert (m1 + multiset{t})[x] == (m2 + multiset{t})[x];
    }
  }

  /** Taking one task out of the list takes its result out of the open results. */
  lemma OpenResultsRemove(b: seq<Target>, k: int, env: Environment)
    requires 0 <= k < |b|
    ensures multiset(OpenResults(b, env)) ==
      multiset(OpenResults(b[..k] + b[k + 1..], env)) + multiset(OpenResults([b[k]], env))
  {
    var before, after := b[..k], b[k + 1..];
    assert b == before + [b[k]] + after;
    OpenResultsAppend(before + [b[k]], after, env);
    OpenResultsAppend(before, [b[k]], env);
    OpenResultsAppend(before, after, env);
  }

  /**
   * Each task contributes its result once if it came back open and never
   * otherwise (results of different tasks differ in IP or port).
   */
  lemma {:induction false} OpenResultMultiplicity(ts: seq<Target>, t: Target, env: Environment)
    ensures multiset(OpenResults(ts, env))[ScanPort(t.ip, t.port, env)] ==
      if Reachable(env, t) then multiset(ts)[t] else 0
    decreases |ts|
  {
    if ts != [] {
      var init := ts[..|ts| - 1];
      var last := ts[|ts| - 1];
      assert ts == init + [last];
      assert multiset(ts)[t] == multiset(init)[t] + (if last == t then 1 else 0);
      OpenResultMultiplicity(init, t, env);
      OpenResultsSnoc(init, last, env);
      ScanPortDeterminesTarget(last, t, env);
      var mine := ScanPort(t.ip, t.port, env);
      var m0 := multiset(OpenResults(init, env));
      var m1 := multiset(OpenResults(ts, env));
      if Reachable(env, last) {
        var r := ScanPort(last.ip, last.port, env);
        assert m1 == m0 + multiset{r};
        assert m1[mine] == m0[mine] + (if r == mine then 1 else 0);
      } else {
        assert m1 == m0;
      }
    }
  }

  /**
   * With no host and no port repeated, each answering (host, port) pair of the
   * scan is reported exactly once and a silent one never; in general the count
   * is `OpenResultMultiplicity` with `TargetsMultiplicity`.
   */
  lemma ScanOnce(ips: seq<string>, ports: seq<int>, t: Target, env: Environment)
    requires multiset(ips)[t.ip] == 1 && multiset(ports)[t.port] == 1
    ensures multiset(OpenResults(Targets(ips, ports), env))[ScanPort(t.ip, t.port, env)] ==
      if Reachable(env, t) then 1 else 0
  {
    OpenResultMultiplicity(Targets(ips, ports), t, env);
    TargetsMultiplicity(ips, ports, t);
  }

  /** One more task adds its result exactly when that result is open. */
  lemma OpenResultsNext(init: seq<Target>, last: Target, env: Environment)
    ensures OpenResults(init + [last], env) ==
      OpenResults(init, env)
      + if ScanPort(last.ip, last.port, env).state == OPEN then [ScanPort(last.ip, last.port, env)] else []
  {
    assert (init + [last])[..|init|] == init;
  }

  lemma OpenResultsSnoc(init: seq<Target>, last: Target, env: Environment)
    ensures multiset(OpenResults(init + [last], env)) ==
      multiset(OpenResults(init, env))
      + if Reachable(env, last) then multiset{ScanPort(last.ip, last.port, env)} else multiset{}
  {
    assert (init + [last])[..|init|] == init;
  }

  /** One task per host and port, started host by host (one `wg.Add` each). */
  method StartTasks(hosts: seq<string>, ports: seq<int>) returns (tasks: seq<Target>)
    ensures tasks == Targets(hosts, ports)
  {
    tasks := [];
    for i := 0 to |hosts|
      invariant tasks == Targets(hosts[..i], ports)
    {
      for j := 0 to |ports|
        invariant tasks == Targets(hosts[..i], ports) + Row(hosts[i], ports[..j])
      {
        assert ports[..j + 1][..j] == ports[..j];
        tasks := tasks + [Target(hosts[i], ports[j])];
      }
      assert ports[..|ports|] == ports;
      assert hosts[..i + 1][..i] == hosts[..i];
    }
    assert hosts[..|hosts|] == hosts;
  }

  /**
   * The tasks finish in any order; each one whose result is open appends it
   * (under the mutex). The collection is the open results up to order.
   */
  method Collect(tasks: seq<Target>, env: Environment) returns (results: seq<ScanResult>)
    ensures multiset(results) == multiset(OpenResults(tasks, env))
  {
    results := [];
    var pending := multiset(tasks);
    ghost var done: seq<Target> := [];
    while pending != multiset{}
      invariant multiset(done) + pending == multiset(tasks)
      invariant results == OpenResults(done, env)
      decreases |pending|
    {
      var t :| t in pending;
      assert pending == pending - multiset{t} + multiset{t};
      pending := pending - multiset{t};
      var result := ScanPort(t.ip, t.port, env);
      if result.state == OPEN {
        results := results + [result];
      }
      OpenResultsNext(done, t, env);
      assert multiset(done + [t]) == multiset(done) + multiset{t};
      done := done + [t];
    }
    OpenResultsPermutation(done, tasks, env);
  }

  // ---------------------------------------------------------------------------
  // The scanner
  // ---------------------------------------------------------------------------

  class Scanner {
    var ips: seq<string>
    var ports: seq<int>
    var startPort: int
    var endPort: int

    /** `NewScanner`: every field at its zero value. */
    constructor ()
      ensures ips == [] && ports == [] && startPort == 0 && endPort == 0
    {
      ips, ports, startPort, endPort := [], [], 0, 0;
    }

    /**
     * `Scan`: record the hosts, parse the range, append its ports to `ports`,
     * probe every host against every port in `ports` and return the open
     * results, in no particular order. A configuration error ends the scan
     * before any probe.
     */
    method Scan(ipsStr: string, portsStr: string, env: Environment)
      returns (r: Result<seq<ScanResult>, ScanError>)
      modifies this
      ensures ips == Split(ipsStr, ',')
      ensures ParseRange(portsStr).Failure? ==>
        && r == Failure(ParseRange(portsStr).error)
        && ports == old(ports) && startPort == old(startPort) && endPort == old(endPort)
      ensures ParseRange(portsStr).Success? ==>
        && startPort == ParseRange(portsStr).value.0
        && endPort == ParseRange(portsStr).value.1
        && ports == old(ports) + PortRange(startPort, endPort)
        && r.Success?
        && multiset(r.value) == multiset(OpenResults(Targets(ips, ports), env))
    {
      ips := Split(ipsStr, ',');
      var range := ParseRange(portsStr);
      if range.Failure? {
        return Failure(range.error);
      }
      startPort, endPort := range.value.0, range.value.1;
      AppendRange();
      var tasks := StartTasks(ips, ports);
      var results := Collect(tasks, env);
      r := Success(results);
    }

    /** The range loop of `Scan`: every port from `StartPort` to `EndPort` is appended to `Ports`. */
    method AppendRange()
      modifies this
      ensures ports == old(ports) + PortRange(startPort, endPort)
      ensures ips == old(ips) && startPort == old(startPort) && endPort == old(endPort)
    {
      var port := startPort;
      while port <= endPort
        invariant ips == old(ips) && startPort == old(startPort) && endPort == old(endPort)
        invariant startPort <= port && (port <= endPort + 1 || port == startPort)
        invariant ports == old(ports) + PortRange(startPort, port - 1)
        decreases endPort - port
      {
        PortRangeSnoc(startPort, port);
        ports := ports + [port];
        port := port + 1;
      }
      assert PortRange(startPort, port - 1) == PortRange(startPort, endPort);
    }
  }

  // ---------------------------------------------------------------------------
  // The range loop with 64-bit arithmetic
  // ---------------------------------------------------------------------------

  /** Go's `port++` on a 64-bit `int`: it wraps from the largest value to the smallest. */
  function Increment64(p: int): (q: int)
    requires InInt64(p)
    ensures InInt64(q)
  {
    if p == MaxInt64 then MinInt64 else p + 1
  }

  /** The ports the range loop, run with 64-bit `port++`, appends in its first `steps` iterations. */
  function RangeLoopAsWritten(port: int, end: int, steps: nat): (ports: seq<int>)
    requires InInt64(port)
    ensures |ports| <= steps
    ensures forall k :: 0 <= k < |ports| ==> InInt64(ports[k]) && ports[k] <= end
    decreases steps
  {
    if steps == 0 || port > end then [] else [port] + RangeLoopAsWritten(Increment64(port), end, steps - 1)
  }

  /** With the end at the largest 64-bit value the guard never fails: every iteration appends. */
  lemma {:induction false} RangeLoopNeverExits(start: int, steps: nat)
    requires InInt64(start)
    ensures |RangeLoopAsWritten(start, MaxInt64, steps)| == steps
    decreases steps
  {
    if steps > 0 {
      RangeLoopNeverExits(Increment64(start), steps - 1);
    }
  }

  /** Below the largest value the loop as written stops and appends exactly `PortRange`. */
  lemma {:induction false} RangeLoopAsWrittenBelowMax(start: int, end: int, steps: nat)
    requires InInt64(start) && InInt64(end) && end < MaxInt64
    requires steps >= end - start + 1
    ensures RangeLoopAsWritten(start, end, steps) == PortRange(start, end)
    decreases end - start
  {
    if start <= end {
      RangeLoopAsWrittenBelowMax(start + 1, end, steps - 1);
    }
  }
}
