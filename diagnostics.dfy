/** One diagnostic pass over a list of hosts (run_diagnostics): for each
    host in turn a timestamp, a DNS lookup, a ping, a traceroute and one TCP
    connect per requested port, gathered into one record per host.

    Everything that touches the outside world arrives as a parameter: the
    clock, the resolver, the process runner for ping and traceroute, and the
    TCP connector. Each is a function of the position of the host in the
    list (and of the port in the port list), so two probes of the same host
    may see different answers. What the model keeps is everything the code
    does with the answers: the record layout, the order, and the truncation
    of the traceroute text. */
module Diagnostics {
  import opened Lexemes
  import opened PingParser

  /** The traceroute text kept in a record is cut after this many characters. */
  const TruncateLimit: nat := 400
  /** Appended to a traceroute text that was cut. */
  const TruncationMarker: string := "...[truncated]"
  /** The hop ceiling run_diagnostics asks traceroute for. */
  const TracerouteMaxHops: nat := 20

  /** What the resolver answered: an address, or the text of the exception. */
  datatype Resolution = Resolved(ip: string) | ResolveFailed(error: string)

  /** What a TCP connect with a timeout did, and how many milliseconds it
      took either way. */
  datatype Connection = Connected(elapsedMs: real) | ConnectFailed(elapsedMs: real, error: string)

  /** The dictionary dns_lookup returns. */
  datatype DnsResult = DnsResult(name: string, ip: Option<string>, success: bool, error: Option<string>)

  /** The dictionary check_tcp_port returns. */
  datatype PortResult = PortResult(host: string, port: int, open: bool, rttMs: real, error: Option<string>)

  /** One record of run_diagnostics: the traceroute entry keeps only the
      truncated raw text. */
  datatype Record = Record(
    timestamp: string,
    host: string,
    dns: DnsResult,
    ping: PingResult,
    tracerouteRaw: string,
    ports: seq<PortResult>)

  /** The outside world as seen by one pass: host i's timestamp, its DNS
      answer, its ping and traceroute runs (ok flag and captured text), and
      the connect to its j-th port. */
  datatype World = World(
    clock: nat -> string,
    resolve: (nat, string) -> Resolution,
    runPing: (nat, string, int) -> (bool, string),
    runTraceroute: (nat, string, nat) -> (bool, string),
    connect: (nat, nat, string, int) -> Connection)

  /** dns_lookup: a resolved name carries its address and no error, a
      failed one the error and no address. */
  function DnsLookup(name: string, answer: Resolution): (r: DnsResult)
    ensures r.name == name
    ensures r.success <==> answer.Resolved?
    ensures r.success <==> r.ip.Some?
    ensures r.success <==> r.error.None?
    ensures answer.Resolved? ==> r.ip == Some(answer.ip)
    ensures answer.ResolveFailed? ==> r.error == Some(answer.error)
  {
    match answer
    case Resolved(ip) => DnsResult(name, Some(ip), true, None)
    case ResolveFailed(e) => DnsResult(name, None, false, Some(e))
  }

  /** check_tcp_port: the result names the host and port it was asked
      about, is open exactly when the connect succeeded, and carries the
      error only when it did not. */
  function CheckTcpPort(host: string, port: int, c: Connection): (r: PortResult)
    ensures r.host == host && r.port == port
    ensures r.open <==> c.Connected?
    ensures r.error.None? <==> r.open
    ensures r.rttMs == c.elapsedMs
  {
    match c
    case Connected(ms) => PortResult(host, port, true, ms, None)
    case ConnectFailed(ms, e) => PortResult(host, port, false, ms, Some(e))
  }

  /** The traceroute text a record keeps: at most TruncateLimit characters,
      followed by the marker when anything was cut. */
  function Truncate(raw: string): (r: string)
    ensures |raw| <= TruncateLimit ==> r == raw
    ensures |raw| > TruncateLimit ==> r == raw[..TruncateLimit] + TruncationMarker
    ensures |r| <= TruncateLimit + |TruncationMarker|
  {
    if |raw| > TruncateLimit then raw[..TruncateLimit] + TruncationMarker else raw
  }

  /** Truncating what was already truncated changes nothing: a cut text is
      400 characters of the original plus the marker, and cutting it again
      keeps the same 400 and puts the marker back. */
  lemma TruncateIdempotent(raw: string)
    ensures Truncate(Truncate(raw)) == Truncate(raw)
  {
    if |raw| > TruncateLimit {
      var t := Truncate(raw);
      assert t[..TruncateLimit] == raw[..TruncateLimit];
    }
  }

  /** A cut text still starts with the first 400 characters of the
      original: truncation never alters what it keeps. */
  lemma TruncateKeepsPrefix(raw: string)
    ensures var n := if |raw| < TruncateLimit then |raw| else TruncateLimit;
            Truncate(raw)[..n] == raw[..n]
  {
  }

  /** The port list run_diagnostics works with: a missing list is empty. */
  function PortList(ports: Option<seq<int>>): (ps: seq<int>)
    ensures ports.None? ==> ps == []
    ensures ports.Some? ==> ps == ports.value
  {
    if ports.None? then [] else ports.value
  }

  /** The port probes of host i, in the order of the port list. */
  predicate PortsProbed(results: seq<PortResult>, i: nat, host: string, portList: seq<int>, w: World) {
    |results| == |portList|
    && forall j :: 0 <= j < |portList| ==> results[j] == CheckTcpPort(host, portList[j], w.connect(i, j, host, portList[j]))
  }

  /** What the record of the i-th host holds: every probe was run, each on
      its own, and none of their outcomes depends on another's. */
  predicate RecordFor(r: Record, i: nat, host: string, portList: seq<int>, pingCount: int, w: World) {
    var pingRun := w.runPing(i, host, pingCount);
    r.timestamp == w.clock(i)
    && r.host == host
    && r.dns == DnsLookup(host, w.resolve(i, host))
    && r.ping == ExpectedPing(host, pingRun.0, pingRun.1)
    && r.tracerouteRaw == Truncate(w.runTraceroute(i, host, TracerouteMaxHops).1)
    && PortsProbed(r.ports, i, host, portList, w)
  }

  /** The TCP probes of one host, one per port, in order. */
  method ProbePorts(i: nat, host: string, portList: seq<int>, w: World) returns (portResults: seq<PortResult>)
    ensures PortsProbed(portResults, i, host, portList, w)
  {
    portResults := [];
    var j := 0;
    while j < |portList|
      invariant 0 <= j <= |portList|
      invariant |portResults| == j
      invariant forall k :: 0 <= k < j ==> portResults[k] == CheckTcpPort(host, portList[k], w.connect(i, k, host, portList[k]))
    {
      var p := portList[j];
      portResults := portResults + [CheckTcpPort(host, p, w.connect(i, j, host, p))];
      j := j + 1;
    }
  }

  /** run_diagnostics: one record per host, in the order of the host list. */
  method RunDiagnostics(hosts: seq<string>, ports: Option<seq<int>>, pingCount: int, w: World)
    returns (results: seq<Record>)
    ensures |results| == |hosts|
    ensures forall i :: 0 <= i < |hosts| ==> RecordFor(results[i], i, hosts[i], PortList(ports), pingCount, w)
  {
    var portList := PortList(ports);
    results := [];
    var i := 0;
    while i < |hosts|
      invariant 0 <= i <= |hosts|
      invariant |results| == i
      invariant forall k :: 0 <= k < i ==> RecordFor(results[k], k, hosts[k], portList, pingCount, w)
    {
      var h := hosts[i];
      var t0 := w.clock(i);
      var dns := DnsLookup(h, w.resolve(i, h));
      var pingRun := w.runPing(i, h, pingCount);
      var ping := PingHost(h, pingRun.0, pingRun.1);
      var tr := w.runTraceroute(i, h, TracerouteMaxHops);
      var portResults := ProbePorts(i, h, portList, w);
      var record := Record(t0, h, dns, ping, Truncate(tr.1), portResults);
      results := results + [record];
      i := i + 1;
    }
  }

  /** Without a port list no host gets a port probe. This unfolds
      RecordFor at the empty port list. */
  lemma NoPortsNoProbes(r: Record, i: nat, host: string, pingCount: int, w: World)
    requires RecordFor(r, i, host, PortList(None), pingCount, w)
    ensures r.ports == []
  {
  }

  /** A failed DNS lookup or an unreachable ping does not keep the other
      probes from running: two worlds that differ only in the resolver and
      the ping runner give records that agree on everything else. This
      unfolds RecordFor: none of its other conjuncts reads the resolver or
      the ping runner. */
  lemma ProbesIndependent(r1: Record, r2: Record, i: nat, host: string, portList: seq<int>, pingCount: int,
                          w1: World, w2: World)
    requires w1.clock == w2.clock && w1.runTraceroute == w2.runTraceroute && w1.connect == w2.connect
    requires RecordFor(r1, i, host, portList, pingCount, w1) && RecordFor(r2, i, host, portList, pingCount, w2)
    ensures r1.timestamp == r2.timestamp && r1.host == r2.host
    ensures r1.tracerouteRaw == r2.tracerouteRaw && r1.ports == r2.ports
  {
  }
}
