/**
  The VirtualService table: each VirtualService becomes one row whose ports and destinations
  flatten every HTTP rule's matches and routes, in declaration order, without deduplication.
 */
module VirtualServices {
  import opened Wrappers
  import opened Sequences
  import opened Text
  import opened Fetch
  import opened Kubernetes

  /** One `match` entry of an HTTP rule; only its optional `port` is read. */
  datatype HttpMatch = HttpMatch(port: Option<nat>)
  datatype Destination = Destination(host: Option<string>)
  datatype HttpRoute = HttpRoute(destination: Destination)

  /** One entry of `spec.http`: its `match` and `route` lists (both read unconditionally). */
  datatype HttpRule = HttpRule(matches: seq<HttpMatch>, route: seq<HttpRoute>)

  /** `spec.hosts`, `spec.gateways` and `spec.http`, all read unconditionally by the projection. */
  datatype VirtualServiceSpec = VirtualServiceSpec(hosts: seq<string>, gateways: seq<string>, http: seq<HttpRule>)
  datatype VirtualService = VirtualService(metadata: ObjectMeta, spec: VirtualServiceSpec)

  /** One table row; every list-valued column is already joined into text. */
  datatype VsRow = VsRow(
    id: string,
    name: string,
    namespace: string,
    gateways: string,
    hostnames: string,
    ports: string,
    destinations: string)

  const Comma := ", "
  const VirtualServicesPath := "/apis/networking.istio.io/v1beta1/virtualservices"

  /** `fetchAllVSData`: the cluster-wide VirtualService list. */
  function FetchAllVirtualServices(proxy: Proxy<VirtualService>, cluster: string): (r: Fetched<VirtualService>)
    ensures r.Threw? <==> !proxy(cluster, VirtualServicesPath).ok
    ensures r.Threw? ==> r.message == proxy(cluster, VirtualServicesPath).body.message.ValueOr("")
    ensures r.Returned? ==> r.items == proxy(cluster, VirtualServicesPath).body.items
  {
    FetchItems(proxy, cluster, VirtualServicesPath)
  }

  /** A match's port as `join` renders it: its decimal text, or "" when it is undefined. */
  function PortText(m: HttpMatch): (r: string)
    ensures m.port.None? ==> r == ""
    ensures m.port.Some? ==> ParseNat(r) == Some(m.port.value)
  {
    match m.port
    case None => ""
    case Some(p) =>
      ParseNatRoundTrip(p);
      NatToDecimal(p)
  }

  /** A route's destination host as `join` renders it ("" when undefined). */
  function HostText(route: HttpRoute): string {
    route.destination.host.ValueOr("")
  }

  function RulePorts(rule: HttpRule): seq<string> {
    Map(rule.matches, PortText)
  }

  function RuleDestinations(rule: HttpRule): seq<string> {
    Map(rule.route, HostText)
  }

  /** Every match port of every HTTP rule, rule by rule and then match by match. */
  function Ports(vs: VirtualService): seq<string> {
    FlatMap(vs.spec.http, RulePorts)
  }

  /** Every route destination host of every HTTP rule, rule by rule and then route by route. */
  function Destinations(vs: VirtualService): seq<string> {
    FlatMap(vs.spec.http, RuleDestinations)
  }

  /** The number of `match` entries over a list of rules. */
  function MatchCount(rules: seq<HttpRule>): nat {
    if |rules| == 0 then 0 else |rules[0].matches| + MatchCount(rules[1..])
  }

  /** The number of `route` entries over a list of rules. */
  function RouteCount(rules: seq<HttpRule>): nat {
    if |rules| == 0 then 0 else |rules[0].route| + RouteCount(rules[1..])
  }

  lemma {:induction false} MatchCountIsLength(rules: seq<HttpRule>)
    ensures TotalLength(rules, RulePorts) == MatchCount(rules)
  {
    if |rules| > 0 {
      MatchCountIsLength(rules[1..]);
    }
  }

  lemma {:induction false} RouteCountIsLength(rules: seq<HttpRule>)
    ensures TotalLength(rules, RuleDestinations) == RouteCount(rules)
  {
    if |rules| > 0 {
      RouteCountIsLength(rules[1..]);
    }
  }

  /**
    Ports keep declaration order and multiplicity: there is one entry per `match`, and the port of
    match `j` of rule `k` sits right after the ports of the rules before `k`.
   */
  lemma PortsInDeclarationOrder(vs: VirtualService, k: nat, j: nat)
    requires k < |vs.spec.http| && j < |vs.spec.http[k].matches|
    ensures |Ports(vs)| == MatchCount(vs.spec.http)
    ensures MatchCount(vs.spec.http[..k]) + j < |Ports(vs)|
    ensures Ports(vs)[MatchCount(vs.spec.http[..k]) + j] == PortText(vs.spec.http[k].matches[j])
  {
    MatchCountIsLength(vs.spec.http);
    MatchCountIsLength(vs.spec.http[..k]);
    FlatMapAt(vs.spec.http, RulePorts, k, j);
  }

  /**
    Destinations keep declaration order and multiplicity: one entry per `route`, the host of route
    `j` of rule `k` right after the destinations of the rules before `k`.
   */
  lemma DestinationsInDeclarationOrder(vs: VirtualService, k: nat, j: nat)
    requires k < |vs.spec.http| && j < |vs.spec.http[k].route|
    ensures |Destinations(vs)| == RouteCount(vs.spec.http)
    ensures RouteCount(vs.spec.http[..k]) + j < |Destinations(vs)|
    ensures Destinations(vs)[RouteCount(vs.spec.http[..k]) + j] == HostText(vs.spec.http[k].route[j])
  {
    RouteCountIsLength(vs.spec.http);
    RouteCountIsLength(vs.spec.http[..k]);
    FlatMapAt(vs.spec.http, RuleDestinations, k, j);
  }

  /** The id of row `index`: "vs-" followed by the index, which reads back from the id. */
  function RowId(index: nat): (id: string)
    ensures |id| > 3 && id[..3] == "vs-"
    ensures ParseNat(id[3..]) == Some(index)
  {
    var id := "vs-" + NatToDecimal(index);
    assert id[3..] == NatToDecimal(index);
    ParseNatRoundTrip(index);
    id
  }

  /** Distinct positions get distinct ids. */
  lemma RowIdsDistinct(i: nat, j: nat)
    requires i != j
    ensures RowId(i) != RowId(j)
  {
  }

  /** No entry of the list contains a comma, so a ", "-join of it can be split back. */
  predicate CommaFree(parts: seq<string>) {
    forall i :: 0 <= i < |parts| ==> ',' !in parts[i]
  }

  /** A non-empty comma-free list is recovered by splitting its ", "-join. */
  lemma CommaJoinSplits(parts: seq<string>)
    requires |parts| > 0 && CommaFree(parts)
    ensures Split(Join(parts, Comma), Comma) == parts
  {
    SplitJoin(parts, Comma);
  }

  /**
    Without the comma-free premise no reading of a column can recover its list: an entry holding
    ", " joins to the same text as the two entries around it.
   */
  lemma CommaEntriesCollide(first: string, second: string)
    ensures Join([first + Comma + second], Comma) == Join([first, second], Comma)
    ensures [first + Comma + second] != [first, second]
  {
  }

  /**
    The row of the VirtualService at position `index`. Name and namespace are copied from the
    metadata; the id reads back as the index; every list column is the ", "-join of its list, so
    it is "" for an empty list and splits back into the list when the entries have no comma (ports
    never do).
   */
  function Project(vs: VirtualService, index: nat): (row: VsRow)
    ensures row.name == vs.metadata.name && row.namespace == vs.metadata.namespace
    ensures row.id == RowId(index)
    ensures |Ports(vs)| == 0 ==> row.ports == ""
    ensures |Ports(vs)| > 0 ==> Split(row.ports, Comma) == Ports(vs)
    ensures |Destinations(vs)| == 0 ==> row.destinations == ""
    ensures |Destinations(vs)| > 0 && CommaFree(Destinations(vs)) ==> Split(row.destinations, Comma) == Destinations(vs)
    ensures |vs.spec.gateways| == 0 ==> row.gateways == ""
    ensures |vs.spec.gateways| > 0 && CommaFree(vs.spec.gateways) ==> Split(row.gateways, Comma) == vs.spec.gateways
    ensures |vs.spec.hosts| == 0 ==> row.hostnames == ""
    ensures |vs.spec.hosts| > 0 && CommaFree(vs.spec.hosts) ==> Split(row.hostnames, Comma) == vs.spec.hosts
  {
    var row := VsRow(
      RowId(index),
      vs.metadata.name,
      vs.metadata.namespace,
      Join(vs.spec.gateways, Comma),
      Join(vs.spec.hosts, Comma),
      Join(Ports(vs), Comma),
      Join(Destinations(vs), Comma));
    assert |Ports(vs)| > 0 ==> Split(row.ports, Comma) == Ports(vs) by {
      if |Ports(vs)| > 0 {
        PortTextsCommaFree(vs);
        CommaJoinSplits(Ports(vs));
      }
    }
    assert |Destinations(vs)| > 0 && CommaFree(Destinations(vs)) ==> Split(row.destinations, Comma) == Destinations(vs) by {
      if |Destinations(vs)| > 0 && CommaFree(Destinations(vs)) { CommaJoinSplits(Destinations(vs)); }
    }
    assert |vs.spec.gateways| > 0 && CommaFree(vs.spec.gateways) ==> Split(row.gateways, Comma) == vs.spec.gateways by {
      if |vs.spec.gateways| > 0 && CommaFree(vs.spec.gateways) { CommaJoinSplits(vs.spec.gateways); }
    }
    assert |vs.spec.hosts| > 0 && CommaFree(vs.spec.hosts) ==> Split(row.hostnames, Comma) == vs.spec.hosts by {
      if |vs.spec.hosts| > 0 && CommaFree(vs.spec.hosts) { CommaJoinSplits(vs.spec.hosts); }
    }
    row
  }

  /** `VSRows || []`: one row per VirtualService in item order, none while there is no data. */
  function Rows(value: Option<seq<VirtualService>>): (rows: seq<VsRow>)
    ensures value.None? ==> rows == []
    ensures value.Some? ==> |rows| == |value.value|
    ensures value.Some? ==> forall i :: 0 <= i < |rows| ==> rows[i] == Project(value.value[i], i)
  {
    match value
    case None => []
    case Some(items) => seq(|items|, i requires 0 <= i < |items| => Project(items[i], i))
  }

  /** The data handed to the table for a given `useAsync` state. */
  function TableRows(state: AsyncState<VirtualService>): (rows: seq<VsRow>)
    ensures state.Loading? ==> rows == []
    ensures state.Settled? && state.outcome.Threw? ==> rows == []
    ensures state.Settled? && state.outcome.Returned? && state.outcome.items.None? ==> rows == []
    ensures state.Settled? && state.outcome.Returned? && state.outcome.items.Some? ==>
      |rows| == |state.outcome.items.value| &&
      forall i :: 0 <= i < |rows| ==> rows[i] == Project(state.outcome.items.value[i], i)
  {
    Rows(AsyncValue(state))
  }

  /** Row ids are pairwise distinct. */
  lemma RowsHaveDistinctIds(value: Option<seq<VirtualService>>, i: nat, j: nat)
    requires i < |Rows(value)| && j < |Rows(value)| && i != j
    ensures Rows(value)[i].id != Rows(value)[j].id
  {
    RowIdsDistinct(i, j);
  }

  /** No rendered port contains a comma: each is digits or empty. */
  lemma PortTextsCommaFree(vs: VirtualService)
    ensures CommaFree(Ports(vs))
  {
    forall i | 0 <= i < |Ports(vs)| ensures ',' !in Ports(vs)[i] {
      PortsDigitsOnly(vs.spec.http, i);
    }
  }

  lemma {:induction false} PortsDigitsOnly(rules: seq<HttpRule>, i: nat)
    requires i < |FlatMap(rules, RulePorts)|
    ensures AllDigits(FlatMap(rules, RulePorts)[i])
  {
    var head := RulePorts(rules[0]);
    if i >= |head| {
      PortsDigitsOnly(rules[1..], i - |head|);
    } else {
      var m := rules[0].matches[i];
      if m.port.Some? {
        assert head[i] == NatToDecimal(m.port.value);
      }
    }
  }

  /** Appending HTTP rules appends their ports: the column is built rule by rule. */
  lemma PortsRuleByRule(vs: VirtualService, index: nat, first: seq<HttpRule>, second: seq<HttpRule>)
    requires vs.spec.http == first + second
    requires MatchCount(first) > 0 && MatchCount(second) > 0
    ensures Project(vs, index).ports ==
      Join(FlatMap(first, RulePorts), Comma) + Comma + Join(FlatMap(second, RulePorts), Comma)
  {
    FlatMapAppend(first, second, RulePorts);
    MatchCountIsLength(first);
    MatchCountIsLength(second);
    JoinAppend(FlatMap(first, RulePorts), FlatMap(second, RulePorts), Comma);
  }

  lemma SampleDecimals()
    ensures NatToDecimal(80) == "80" && NatToDecimal(443) == "443" && NatToDecimal(8080) == "8080"
  {
    assert NatToDecimal(8) == "8" && NatToDecimal(4) == "4";
    assert NatToDecimal(44) == "44";
    assert NatToDecimal(808) == "808";
  }

  /** Two rules, matching ports 80 and 443 and then 8080, project to "80, 443, 8080". */
  lemma ScenarioTwoRules()
    ensures
      var rules := [
        HttpRule([HttpMatch(Some(80)), HttpMatch(Some(443))], []),
        HttpRule([HttpMatch(Some(8080))], [])];
      var vs := VirtualService(ObjectMeta("reviews", "default"), VirtualServiceSpec(["reviews"], ["mesh"], rules));
      Project(vs, 0).ports == "80, 443, 8080"
  {
    var rules := [
      HttpRule([HttpMatch(Some(80)), HttpMatch(Some(443))], []),
      HttpRule([HttpMatch(Some(8080))], [])];
    var vs := VirtualService(ObjectMeta("reviews", "default"), VirtualServiceSpec(["reviews"], ["mesh"], rules));
    SampleDecimals();
    SampleRulePorts(rules);
    assert Ports(vs) == ["80", "443", "8080"];
    SampleJoin();
  }

  lemma SampleJoin()
    ensures Join(["80", "443", "8080"], Comma) == "80, 443, 8080"
  {
    var ports := ["80", "443", "8080"];
    assert ports[1..] == ["443", "8080"] && ports[1..][1..] == ["8080"];
  }

  lemma SampleRulePorts(rules: seq<HttpRule>)
    requires NatToDecimal(80) == "80" && NatToDecimal(443) == "443" && NatToDecimal(8080) == "8080"
    requires rules == [
      HttpRule([HttpMatch(Some(80)), HttpMatch(Some(443))], []),
      HttpRule([HttpMatch(Some(8080))], [])]
    ensures FlatMap(rules, RulePorts) == ["80", "443", "8080"]
  {
    var first, second := rules[0].matches, rules[1].matches;
    assert first[1..] == [first[1]] && first[1..][1..] == [] && second[1..] == [];
    assert RulePorts(rules[0]) == ["80", "443"];
    assert RulePorts(rules[1]) == ["8080"];
    assert rules[1..] == [rules[1]] && rules[1..][1..] == [];
    assert FlatMap(rules[1..], RulePorts) == ["8080"] + [];
    assert FlatMap(rules, RulePorts) == ["80", "443"] + (["8080"] + []);
  }
}
