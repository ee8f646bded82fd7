/** `protocolResolver` and `schemeResolver` of server.go: the descriptive metadata (transport, port,
    protocol label, scheme) that the demo pages and the echo handler show for a request. */
module Resolver {
  import opened Results
  import opened Strings
  import opened Http

  /** The label of each benchmark port. */
  const Protocols: map<string, string> :=
    map["8080" := "http/1.1", "8081" := "http/1.1 + TLS", "8082" := "http/2", "8083" := "QUIC"]

  /** The port assumed when the Host carries none. */
  const DefaultPort: string := "80"

  /** The index of the last `c` in `s`, if any. */
  function LastIndexOf(s: string, c: char): (r: Option<nat>)
    ensures r.None? <==> c !in s
    ensures r.Some? ==> r.value < |s| && s[r.value] == c
    ensures r.Some? ==> forall j :: r.value < j < |s| ==> s[j] != c
  {
    if |s| == 0 then None
    else if s[|s| - 1] == c then Some(|s| - 1)
    else LastIndexOf(s[..|s| - 1], c)
  }

  /** The port part of `hostport`, as `net.SplitHostPort` finds it in the simplified grammar of this
      model: the text after the last ':', and failure when there is no ':'. */
  function SplitPort(hostport: string): (r: Option<string>)
    ensures r.None? <==> ':' !in hostport
    ensures r.Some? ==> ':' !in r.value
    ensures r.Some? ==> |r.value| < |hostport| && hostport[|hostport| - |r.value| - 1..] == ":" + r.value
  {
    match LastIndexOf(hostport, ':')
    case None => None
    case Some(i) =>
      assert hostport[i..] == [':'] + hostport[i + 1..];
      Some(hostport[i + 1..])
  }

  /** Joining a host and a colon-free port and splitting them again gives back the port. */
  lemma SplitPortOfJoin(host: string, port: string)
    requires ':' !in port
    ensures SplitPort(host + ":" + port) == Some(port)
  {
    var hp := host + ":" + port;
    assert hp[|host|] == ':';
    var i := LastIndexOf(hp, ':').value;
    assert forall j :: |host| < j < |hp| ==> hp[j] == port[j - |host| - 1];
    assert i == |host|;
    assert hp[|host| + 1..] == port;
  }

  /** The label of a port: its entry in the table, "" for any other port (Go's zero value). */
  function ProtocolLabel(port: string): (tag: string)
    ensures tag != "" <==> port in Protocols
    ensures tag == "QUIC" <==> port == "8083"
  {
    if port in Protocols then Protocols[port] else ""
  }

  /** What `protocolResolver` returns. */
  datatype Resolution = Resolution(transport: string, port: string, protocol: string)

  /** `protocolResolver`: the port of the Host (the default port when it has none), its label, and
      the transport, "udp" for QUIC and "tcp" otherwise. */
  function ResolveProtocol(request: Request): (r: Resolution)
    ensures r.protocol == ProtocolLabel(r.port)
    ensures r.transport == "udp" <==> r.protocol == "QUIC"
    ensures r.transport == "tcp" <==> r.protocol != "QUIC"
    ensures r.transport == "udp" <==> r.port == "8083"
    ensures ':' !in request.host ==> r.port == DefaultPort && r.protocol == "" && r.transport == "tcp"
    ensures ':' in request.host ==> SplitPort(request.host) == Some(r.port)
  {
    var port := match SplitPort(request.host) case None => DefaultPort case Some(p) => p;
    var protocol := ProtocolLabel(port);
    var transport := if protocol == "QUIC" then "udp" else "tcp";
    Resolution(transport, port, protocol)
  }

  /** The table, seen from a request whose Host ends in ":" + port: each benchmark port gets its
      label, every other port (such as "80" or "443") the empty label and "tcp". */
  lemma PortTable(request: Request, name: string, port: string)
    requires ':' !in port
    requires request.host == name + ":" + port
    ensures ResolveProtocol(request).port == port
    ensures port == "8080" ==> ResolveProtocol(request) == Resolution("tcp", port, "http/1.1")
    ensures port == "8081" ==> ResolveProtocol(request) == Resolution("tcp", port, "http/1.1 + TLS")
    ensures port == "8082" ==> ResolveProtocol(request) == Resolution("tcp", port, "http/2")
    ensures port == "8083" ==> ResolveProtocol(request) == Resolution("udp", port, "QUIC")
    ensures port !in Protocols ==> ResolveProtocol(request) == Resolution("tcp", port, "")
  {
    SplitPortOfJoin(name, port);
  }

  /** `schemeResolver`: "https" exactly for requests that arrived over TLS, "http" otherwise. */
  function Scheme(request: Request): (s: string)
    ensures s == "https" <==> request.tls
    ensures s == "http" <==> !request.tls
  {
    if request.tls then "https" else "http"
  }
}
