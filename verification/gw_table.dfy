/**
  The Gateway table: exactly one row per Gateway, whose host and port cells stack the values of
  all its servers, in server order, separated by HTML line breaks.
 */
module Gateways {
  import opened Wrappers
  import opened Sequences
  import opened Text
  import opened Fetch
  import opened Kubernetes

  /** The `port` of a server: its name, number and protocol. */
  datatype ServerPort = ServerPort(name: string, number: nat, protocol: string)

  /** One entry of `spec.servers`: its `hosts` and `port` (both read unconditionally). */
  datatype Server = Server(hosts: seq<string>, port: ServerPort)
  datatype GatewaySpec = GatewaySpec(servers: seq<Server>)
  datatype Gateway = Gateway(metadata: ObjectMeta, spec: GatewaySpec)

  /** One table row, the host and port cells as the HTML that is injected into the cell. */
  datatype GwRow = GwRow(name: string, namespace: string, hostname: string, portInfo: string)

  /** What the component renders for a given fetch state. */
  datatype GwView = ShowLoading | NoGateways | Table(rows: seq<GwRow>)

  const Br := "<br/>"
  const GatewaysPath := "/apis/networking.istio.io/v1beta1/gateways"

  /** `fetchAllGWData`: the cluster-wide Gateway list. */
  function FetchAllGateways(proxy: Proxy<Gateway>, cluster: string): (r: Fetched<Gateway>)
    ensures r.Threw? <==> !proxy(cluster, GatewaysPath).ok
    ensures r.Threw? ==> r.message == proxy(cluster, GatewaysPath).body.message.ValueOr("")
    ensures r.Returned? ==> r.items == proxy(cluster, GatewaysPath).body.items
  {
    FetchItems(proxy, cluster, GatewaysPath)
  }

  function HostsOf(server: Server): seq<string> {
    server.hosts
  }

  /** One server's hosts, one per line. */
  function ServerHosts(server: Server): string {
    Join(server.hosts, Br)
  }

  /** `extractHosts`: each server's hosts joined by line breaks, then the servers joined the same way. */
  function ExtractHosts(servers: seq<Server>): (r: string)
    ensures |servers| == 0 ==> r == ""
    ensures |servers| == 1 ==> r == Join(servers[0].hosts, Br)
  {
    Join(Map(servers, ServerHosts), Br)
  }

  /** The host cell is built server by server: the cells of two server lists join with one line break. */
  lemma ExtractHostsAppend(first: seq<Server>, second: seq<Server>)
    requires |first| > 0 && |second| > 0
    ensures ExtractHosts(first + second) == ExtractHosts(first) + Br + ExtractHosts(second)
  {
    MapAppend(first, second, ServerHosts);
    JoinAppend(Map(first, ServerHosts), Map(second, ServerHosts), Br);
  }

  /**
    When every server has a host, the two-level join is the single join of all hosts in server
    order: the cell is one host per line.
   */
  lemma {:induction false} ExtractHostsFlattens(servers: seq<Server>)
    requires forall i :: 0 <= i < |servers| ==> |servers[i].hosts| > 0
    ensures ExtractHosts(servers) == Join(FlatMap(servers, HostsOf), Br)
  {
    if |servers| == 1 {
      assert servers[1..] == [];
      assert servers[0].hosts + [] == servers[0].hosts;
      assert FlatMap(servers, HostsOf) == servers[0].hosts;
      assert |Map(servers, ServerHosts)| == 1;
    } else if |servers| > 1 {
      ExtractHostsFlattens(servers[1..]);
      var rest := FlatMap(servers[1..], HostsOf);
      assert servers[1..][1..] == servers[2..];
      assert rest == servers[1].hosts + FlatMap(servers[2..], HostsOf);
      assert FlatMap(servers, HostsOf) == servers[0].hosts + rest;
      JoinAppend(servers[0].hosts, rest, Br);
      var lines := Map(servers, ServerHosts);
      assert lines[1..] == Map(servers[1..], ServerHosts);
      assert Join(lines, Br) == lines[0] + Br + Join(lines[1..], Br);
    }
  }

  /**
    The host cell lists every host once, server by server: splitting it at the line breaks gives
    the concatenation of all servers' hosts, when every server has a host and no host has a '<'.
   */
  lemma HostsOnePerLine(servers: seq<Server>)
    requires |servers| > 0
    requires forall i :: 0 <= i < |servers| ==> |servers[i].hosts| > 0
    requires forall i :: 0 <= i < |FlatMap(servers, HostsOf)| ==> '<' !in FlatMap(servers, HostsOf)[i]
    ensures Split(ExtractHosts(servers), Br) == FlatMap(servers, HostsOf)
  {
    ExtractHostsFlattens(servers);
    assert |FlatMap(servers, HostsOf)| > 0 by {
      FlatMapAt(servers, HostsOf, 0, 0);
    }
    SplitJoin(FlatMap(servers, HostsOf), Br);
  }

  /** A server without hosts still contributes an (empty) line, so the flattening above needs its premise. */
  lemma ServerWithoutHostsLeavesBlankLine(port: ServerPort)
    ensures ExtractHosts([Server([], port), Server(["a"], port)]) == "<br/>a"
    ensures Join(FlatMap([Server([], port), Server(["a"], port)], HostsOf), Br) == "a"
  {
    var servers := [Server([], port), Server(["a"], port)];
    assert servers[1..] == [Server(["a"], port)];
    assert servers[1..][1..] == [];
    assert Map(servers[1..], ServerHosts) == ["a"];
    assert Map(servers, ServerHosts) == ["", "a"];
    assert FlatMap(servers[1..], HostsOf) == ["a"] + [];
    assert FlatMap(servers, HostsOf) == [] + (["a"] + []);
    assert [] + (["a"] + []) == ["a"];
  }

  /** A server's port as `name (number/protocol)`. */
  function PortDescriptor(port: ServerPort): (r: string)
    ensures '/' !in port.protocol ==> ParseDescriptor(r) == Some(port)
  {
    var r := port.name + " (" + NatToDecimal(port.number) + "/" + port.protocol + ")";
    assert '/' !in port.protocol ==> ParseDescriptor(r) == Some(port) by {
      if '/' !in port.protocol { DescriptorRoundTrip(port); }
    }
    r
  }

  /**
    Without the premise on the protocol no reading can recover the port: a port whose protocol
    holds `" (<n>/"` renders to the same descriptor as a different port whose name holds it, and
    that descriptor parses back to the latter.
   */
  lemma SlashedProtocolsCollide(name: string, first: nat, middle: string, second: nat, protocol: string)
    requires '/' !in protocol
    ensures ServerPort(name + " (" + NatToDecimal(first) + "/" + middle, second, protocol)
         != ServerPort(name, first, middle + " (" + NatToDecimal(second) + "/" + protocol)
    ensures PortDescriptor(ServerPort(name + " (" + NatToDecimal(first) + "/" + middle, second, protocol))
         == PortDescriptor(ServerPort(name, first, middle + " (" + NatToDecimal(second) + "/" + protocol))
    ensures ParseDescriptor(PortDescriptor(ServerPort(name, first, middle + " (" + NatToDecimal(second) + "/" + protocol)))
         == Some(ServerPort(name + " (" + NatToDecimal(first) + "/" + middle, second, protocol))
  {
    var d1, d2 := NatToDecimal(first), NatToDecimal(second);
    var plain := ServerPort(name + " (" + d1 + "/" + middle, second, protocol);
    var slashed := ServerPort(name, first, middle + " (" + d2 + "/" + protocol);
    assert |plain.name| > |slashed.name|;
    Regroup(name, d1, middle, d2, protocol);
    SameText(plain, slashed);
  }

  /** Moving `" (<digits>/"` across the join of name, number and protocol leaves the text unchanged. */
  lemma Regroup(name: string, d1: string, middle: string, d2: string, protocol: string)
    ensures (name + " (" + d1 + "/" + middle) + " (" + d2 + "/" + protocol + ")"
         == name + " (" + d1 + "/" + (middle + " (" + d2 + "/" + protocol) + ")"
  {
  }

  /** Ports whose spelled-out texts agree have the same descriptor. */
  lemma SameText(p: ServerPort, q: ServerPort)
    requires p.name + " (" + NatToDecimal(p.number) + "/" + p.protocol + ")"
          == q.name + " (" + NatToDecimal(q.number) + "/" + q.protocol + ")"
    ensures PortDescriptor(p) == PortDescriptor(q)
  {
  }

  /**
    Reads a port descriptor back, from the right: the protocol follows the last '/', the number is
    the run of digits before it, preceded by " (", and the name is whatever comes first.
   */
  function ParseDescriptor(s: string): Option<ServerPort> {
    if |s| == 0 || s[|s| - 1] != ')' then None
    else
      var inner := s[..|s| - 1];
      match LastIndexOf(inner, '/')
      case None => None
      case Some(k) =>
        match ParseNameNumber(inner[..k])
        case None => None
        case Some((name, number)) => Some(ServerPort(name, number, inner[k + 1..]))
  }

  /** Reads `name (number` back: the trailing digits, then " (", then the name. */
  function ParseNameNumber(left: string): Option<(string, nat)> {
    var n := TrailingDigits(left);
    if n == 0 || |left| < n + 2 || left[|left| - n - 2..|left| - n] != " (" then None
    else
      match ParseNat(left[|left| - n..])
      case None => None
      case Some(number) => Some((left[..|left| - n - 2], number))
  }

  lemma NameNumberRoundTrip(name: string, number: nat)
    ensures ParseNameNumber(name + " (" + NatToDecimal(number)) == Some((name, number))
  {
    var head, digits := name + " (", NatToDecimal(number);
    var left := head + digits;
    TrailingDigitsAfter(head, digits);
    var n := |digits|;
    assert left[|left| - n - 2..|left| - n] == " (";
    assert left[..|left| - n - 2] == name;
    assert left[|left| - n..] == digits;
    ParseNatRoundTrip(number);
  }

  /** Every text `ParseNameNumber` accepts is `name (` followed by the rendering of the number. */
  lemma NameNumberCanonical(left: string)
    requires ParseNameNumber(left).Some?
    ensures left == ParseNameNumber(left).value.0 + " (" + NatToDecimal(ParseNameNumber(left).value.1)
  {
    var n := TrailingDigits(left);
    ParseNatCanonical(left[|left| - n..]);
    assert left == left[..|left| - n - 2] + left[|left| - n - 2..|left| - n] + left[|left| - n..];
  }

  lemma DescriptorRoundTrip(port: ServerPort)
    requires '/' !in port.protocol
    ensures ParseDescriptor(port.name + " (" + NatToDecimal(port.number) + "/" + port.protocol + ")") == Some(port)
  {
    var left := port.name + " (" + NatToDecimal(port.number);
    var s := left + "/" + port.protocol + ")";
    var inner := left + ['/'] + port.protocol;
    assert s[..|s| - 1] == inner;
    LastIndexOfBefore(left, '/', port.protocol);
    assert inner[..|left|] == left;
    assert inner[|left| + 1..] == port.protocol;
    NameNumberRoundTrip(port.name, port.number);
  }

  /**
    Every text the descriptor reader accepts is the descriptor of the port it reads, so a
    descriptor that parses back to a port is exactly that port's `name (number/protocol)`.
   */
  lemma DescriptorCanonical(s: string)
    requires ParseDescriptor(s).Some?
    ensures s == PortDescriptor(ParseDescriptor(s).value)
  {
    var inner := s[..|s| - 1];
    var k := LastIndexOf(inner, '/').value;
    NameNumberCanonical(inner[..k]);
    assert inner == inner[..k] + "/" + inner[k + 1..];
    assert s == inner + ")";
  }

  /** `extractPorts`: one descriptor per server, in server order, one per line. */
  function ExtractPorts(servers: seq<Server>): (r: string)
    ensures |servers| == 0 ==> r == ""
    ensures |servers| == 1 ==> r == PortDescriptor(servers[0].port)
  {
    Join(Map(servers, DescriptorOf), Br)
  }

  /** The port cell is built server by server: the cells of two server lists join with one line break. */
  lemma ExtractPortsAppend(first: seq<Server>, second: seq<Server>)
    requires |first| > 0 && |second| > 0
    ensures ExtractPorts(first + second) == ExtractPorts(first) + Br + ExtractPorts(second)
  {
    MapAppend(first, second, DescriptorOf);
    JoinAppend(Map(first, DescriptorOf), Map(second, DescriptorOf), Br);
  }

  function DescriptorOf(server: Server): string {
    PortDescriptor(server.port)
  }

  /** Port names and protocols that contain neither '<' (HTML) nor, for protocols, '/'. */
  predicate PlainPorts(servers: seq<Server>) {
    forall i :: 0 <= i < |servers| ==> '<' !in servers[i].port.name && '<' !in servers[i].port.protocol && '/' !in servers[i].port.protocol
  }

  lemma DescriptorHasNoBreak(port: ServerPort)
    requires '<' !in port.name && '<' !in port.protocol
    ensures '<' !in PortDescriptor(port)
  {
    var digits := NatToDecimal(port.number);
    assert '<' !in digits by {
      forall i | 0 <= i < |digits| ensures digits[i] != '<' { assert IsDigit(digits[i]); }
    }
  }

  /**
    The port cell holds exactly one descriptor per server, in server order: splitting it at the
    line breaks and parsing each line gives back every server's port.
   */
  lemma PortsOnePerServer(servers: seq<Server>)
    requires |servers| > 0 && PlainPorts(servers)
    ensures Split(ExtractPorts(servers), Br) == Map(servers, DescriptorOf)
    ensures forall i :: 0 <= i < |servers| ==>
      ParseDescriptor(Split(ExtractPorts(servers), Br)[i]) == Some(servers[i].port)
  {
    var descriptors := Map(servers, DescriptorOf);
    forall i | 0 <= i < |descriptors| ensures Br[0] !in descriptors[i] {
      DescriptorHasNoBreak(servers[i].port);
    }
    SplitJoin(descriptors, Br);
  }

  /** The row of one Gateway, however many servers it has. */
  function GatewayRow(gateway: Gateway): (row: GwRow)
    ensures row.name == gateway.metadata.name && row.namespace == gateway.metadata.namespace
    ensures row.hostname == ExtractHosts(gateway.spec.servers)
    ensures row.portInfo == ExtractPorts(gateway.spec.servers)
    ensures |gateway.spec.servers| > 0 && PlainPorts(gateway.spec.servers) ==>
      |Split(row.portInfo, Br)| == |gateway.spec.servers|
  {
    var servers := gateway.spec.servers;
    assert |servers| > 0 && PlainPorts(servers) ==> |Split(ExtractPorts(servers), Br)| == |servers| by {
      if |servers| > 0 && PlainPorts(servers) { PortsOnePerServer(servers); }
    }
    GwRow(gateway.metadata.name, gateway.metadata.namespace, ExtractHosts(servers), ExtractPorts(servers))
  }

  /**
    What the component shows: "Loading..." while the fetch is pending; "No gateways available."
    when there is no value (a thrown fetch, a body without items) or an empty one; otherwise one
    row per Gateway in item order.
   */
  function View(state: AsyncState<Gateway>): (view: GwView)
    ensures view.ShowLoading? <==> state.Loading?
    ensures view.NoGateways? <==> state.Settled? && (AsyncValue(state).None? || AsyncValue(state).value == [])
    ensures view.Table? ==> |view.rows| == |AsyncValue(state).value| > 0
    ensures view.Table? ==> forall i :: 0 <= i < |view.rows| ==> view.rows[i] == GatewayRow(AsyncValue(state).value[i])
  {
    if state.Loading? then ShowLoading
    else
      match AsyncValue(state)
      case None => NoGateways
      case Some(gateways) =>
        if |gateways| == 0 then NoGateways else Table(Map(gateways, GatewayRow))
  }
}
