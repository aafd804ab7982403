/**
  The namespace table of the dashboard: one fetch of pods per namespace, reduced to a row of
  sidecar-injection statistics per namespace, plus the per-pod texts of the pod dialog.
 */
module PodsTable {
  import opened Wrappers
  import opened Sequences
  import opened Text
  import opened Fetch

  datatype ContainerStatus = ContainerStatus(ready: bool, restartCount: nat)
  /** An entry of `spec.containers`: only how many there are is read, so an entry carries no fields. */
  datatype Container = Container

  /**
    The pod fields read here: `metadata.name`, `status.phase`, `spec.containers`,
    `status.containerStatuses` (absent on pods not yet scheduled) and the creation time in
    milliseconds since the epoch.
   */
  datatype Pod = Pod(
    name: string,
    phase: string,
    containers: seq<Container>,
    containerStatuses: Option<seq<ContainerStatus>>,
    creationTimestamp: int)

  /** A namespace as listed by the cluster: its name and its labels, which may be absent. */
  datatype Namespace = Namespace(name: string, labels: Option<map<string, string>>)

  /** One row of the namespace table. */
  datatype NamespaceRow = NamespaceRow(name: string, istioInjection: string, podsRunning: nat, podsWithSidecar: nat)

  const InjectionKey := "istio-injection"
  const Disabled := "disabled"
  const RunningPhase := "Running"
  const MillisPerDay := 1000 * 60 * 60 * 24

  /** The pod-list path of one namespace. */
  function PodsPath(namespace: string): string {
    "/api/v1/namespaces/" + namespace + "/pods"
  }

  predicate IsRunning(pod: Pod) {
    pod.phase == RunningPhase
  }

  /** The sidecar heuristic: a mesh proxy adds a second container, so more than one means injected. */
  predicate HasSidecar(pod: Pod) {
    |pod.containers| > 1
  }

  predicate IsReady(status: ContainerStatus) {
    status.ready
  }

  /** Text of the pod dialog's Ready column: "" without statuses, else "ready/total". */
  function FormatReady(pod: Pod): (r: string)
    ensures r == "" <==> pod.containerStatuses.None?
    ensures pod.containerStatuses.Some? ==>
      var statuses := pod.containerStatuses.value;
      ParseReady(r) == Some((|Positions(statuses, IsReady)|, |statuses|))
    ensures pod.containerStatuses.Some? ==> ParseReady(r).value.0 <= ParseReady(r).value.1
  {
    match pod.containerStatuses
    case None => ""
    case Some(statuses) =>
      var ready := |Filter(statuses, IsReady)|;
      FilterCountsPositions(statuses, IsReady);
      ReadyRoundTrip(ready, |statuses|);
      NatToDecimal(ready) + "/" + NatToDecimal(|statuses|)
  }

  /** Reads a Ready text back into its two counts. */
  function ParseReady(s: string): Option<(nat, nat)> {
    match IndexOf(s, '/')
    case None => None
    case Some(k) =>
      match (ParseNat(s[..k]), ParseNat(s[k + 1..]))
      case (Some(ready), Some(total)) => Some((ready, total))
      case _ => None
  }

  lemma ReadyRoundTrip(ready: nat, total: nat)
    ensures ParseReady(NatToDecimal(ready) + "/" + NatToDecimal(total)) == Some((ready, total))
  {
    var a, b := NatToDecimal(ready), NatToDecimal(total);
    var s := a + "/" + b;
    assert '/' !in a by {
      forall i | 0 <= i < |a| ensures a[i] != '/' { assert IsDigit(a[i]); }
    }
    assert s == a + ['/'] + b;
    IndexOfAfter(a, '/', b);
    assert s[..|a|] == a;
    assert s[|a| + 1..] == b;
    ParseNatRoundTrip(ready);
    ParseNatRoundTrip(total);
  }

  /** Every text the Ready reader accepts is the rendering `ready/total` of the counts it reads. */
  lemma ReadyCanonical(s: string)
    requires ParseReady(s).Some?
    ensures s == NatToDecimal(ParseReady(s).value.0) + "/" + NatToDecimal(ParseReady(s).value.1)
  {
    var k := IndexOf(s, '/').value;
    ParseNatCanonical(s[..k]);
    ParseNatCanonical(s[k + 1..]);
    assert s == s[..k] + "/" + s[k + 1..];
  }

  /**
    Text of the pod dialog's Age column: whole days elapsed from `created` to `now`, rounded down,
    followed by "d". Both instants are integer milliseconds; `now` stands for the wall clock.
   */
  function FormatAge(now: int, created: int): (r: string)
    ensures ParseAge(r).Some?
    ensures var days := ParseAge(r).value;
      days * MillisPerDay <= now - created < (days + 1) * MillisPerDay
  {
    var days := (now - created) / MillisPerDay;
    ParseIntRoundTrip(days);
    assert (IntToDecimal(days) + "d")[..|IntToDecimal(days)|] == IntToDecimal(days);
    IntToDecimal(days) + "d"
  }

  /** Reads an Age text back into its day count. */
  function ParseAge(s: string): Option<int> {
    if |s| > 0 && s[|s| - 1] == 'd' then ParseInt(s[..|s| - 1]) else None
  }

  /** Every text the Age reader accepts is the rendering `<days>d` of the day count it reads. */
  lemma AgeCanonical(s: string)
    requires ParseAge(s).Some?
    ensures s == IntToDecimal(ParseAge(s).value) + "d"
  {
    ParseIntCanonical(s[..|s| - 1]);
    assert s == s[..|s| - 1] + "d";
  }

  /** The cells of one line of the pod dialog: name, Ready, Status, Restarts, Age. */
  datatype PodLine = PodLine(name: string, ready: string, status: string, restarts: string, age: string)

  /**
    One line of the pod dialog. The restarts cell reads the first container status: blank when
    statuses are absent, and the render throws (None here) when the status list is present but empty.
   */
  function PodDetail(pod: Pod, now: int): (r: Option<PodLine>)
    ensures r.None? <==> pod.containerStatuses == Some([])
    ensures r.Some? ==> r.value.name == pod.name && r.value.status == pod.phase
    ensures r.Some? ==> r.value.ready == FormatReady(pod) && r.value.age == FormatAge(now, pod.creationTimestamp)
    ensures r.Some? && pod.containerStatuses.Some? ==>
      ParseNat(r.value.restarts) == Some(pod.containerStatuses.value[0].restartCount)
    ensures r.Some? && pod.containerStatuses.None? ==> r.value.restarts == ""
  {
    var line := (restarts: string) =>
      PodLine(pod.name, FormatReady(pod), pod.phase, restarts, FormatAge(now, pod.creationTimestamp));
    match pod.containerStatuses
    case None => Some(line(""))
    case Some(statuses) =>
      if |statuses| == 0 then None
      else
        ParseNatRoundTrip(statuses[0].restartCount);
        Some(line(NatToDecimal(statuses[0].restartCount)))
  }

  /** The label lookup `metadata.labels?.['istio-injection']`. */
  function InjectionLabel(ns: Namespace): Option<string> {
    match ns.labels
    case Some(labels) => if InjectionKey in labels then Some(labels[InjectionKey]) else None
    case None => None
  }

  /**
    The Istio-injected column: the label's value when it is set to a non-empty string, and
    "disabled" when labels are absent, the key is absent, or the value is "" (a falsy string).
   */
  function Injection(ns: Namespace): (r: string)
    ensures r != ""
    ensures ns.labels.Some? && InjectionKey in ns.labels.value && ns.labels.value[InjectionKey] != "" ==>
      r == ns.labels.value[InjectionKey]
    ensures ns.labels.None? || InjectionKey !in ns.labels.value || ns.labels.value[InjectionKey] == "" ==>
      r == Disabled
  {
    match InjectionLabel(ns)
    case Some(value) => if value != "" then value else Disabled
    case None => Disabled
  }

  /** The row of one namespace, built from that namespace and its own pod list. */
  function Summarize(ns: Namespace, pods: seq<Pod>): (row: NamespaceRow)
    ensures row.name == ns.name && row.istioInjection == Injection(ns)
    ensures row.podsRunning == |Positions(pods, IsRunning)| <= |pods|
    ensures row.podsWithSidecar == |Positions(pods, HasSidecar)| <= |pods|
  {
    FilterCountsPositions(pods, IsRunning);
    FilterCountsPositions(pods, HasSidecar);
    NamespaceRow(ns.name, Injection(ns), |Filter(pods, IsRunning)|, |Filter(pods, HasSidecar)|)
  }

  /** Every pod is counted as running exactly when all of them are in phase Running. */
  lemma AllRunning(ns: Namespace, pods: seq<Pod>)
    ensures Summarize(ns, pods).podsRunning == |pods| <==> forall i :: 0 <= i < |pods| ==> IsRunning(pods[i])
  {
    FilterKeepsAll(pods, IsRunning);
  }

  /** No pod is counted as injected exactly when every pod has at most one container. */
  lemma NoSidecars(ns: Namespace, pods: seq<Pod>)
    ensures Summarize(ns, pods).podsWithSidecar == 0 <==> forall i :: 0 <= i < |pods| ==> |pods[i].containers| <= 1
  {
    FilterKeepsNone(pods, HasSidecar);
  }

  /** The sidecar count reads containers only: pods that differ in anything else count the same. */
  lemma SidecarCountIgnoresPhase(ns: Namespace, pods: seq<Pod>, others: seq<Pod>)
    requires |pods| == |others|
    requires forall i :: 0 <= i < |pods| ==> pods[i].containers == others[i].containers
    ensures Summarize(ns, pods).podsWithSidecar == Summarize(ns, others).podsWithSidecar
  {
    FilterCongruent(pods, HasSidecar, others, HasSidecar);
    FilterCountsPositions(pods, HasSidecar);
    FilterCountsPositions(others, HasSidecar);
  }

  /** The running count adds up over a pod list split in two. */
  lemma RunningCountAdds(ns: Namespace, a: seq<Pod>, b: seq<Pod>)
    ensures Summarize(ns, a + b).podsRunning == Summarize(ns, a).podsRunning + Summarize(ns, b).podsRunning
  {
    FilterAppend(a, b, IsRunning);
    FilterCountsPositions(a + b, IsRunning);
    FilterCountsPositions(a, IsRunning);
    FilterCountsPositions(b, IsRunning);
  }

  /** Why a table refresh rejected: a pod fetch threw, or a returned body had no `items`. */
  datatype AggregateError = FetchThrew(message: string) | ItemsMissing

  /**
    The reduction after `Promise.all`: namespace `i` is paired with pod list `i`. Reading
    `.filter` of an undefined list throws, so one missing list rejects the whole refresh.
   */
  function Reduce(namespaces: seq<Namespace>, lists: seq<Option<seq<Pod>>>): (r: Result<seq<NamespaceRow>, AggregateError>)
    requires |lists| == |namespaces|
    ensures r.Ok? <==> forall i :: 0 <= i < |lists| ==> lists[i].Some?
    ensures r.Err? ==> r.error == ItemsMissing
    ensures r.Ok? ==> |r.value| == |namespaces|
    ensures r.Ok? ==> forall i :: 0 <= i < |namespaces| ==> r.value[i] == Summarize(namespaces[i], lists[i].value)
  {
    if |namespaces| == 0 then Ok([])
    else
      match lists[0]
      case None => Err(ItemsMissing)
      case Some(pods) =>
        match Reduce(namespaces[1..], lists[1..])
        case Err(e) => Err(e)
        case Ok(rows) => Ok([Summarize(namespaces[0], pods)] + rows)
  }

  /** `fetchPodsData`: the pod list of one namespace on one cluster. */
  function FetchPodsData(proxy: Proxy<Pod>, cluster: string, namespace: string): (r: Fetched<Pod>)
    ensures r.Returned? <==> proxy(cluster, PodsPath(namespace)).ok
    ensures r.Returned? ==> r.items == proxy(cluster, PodsPath(namespace)).body.items
    ensures r.Threw? ==> r.message == proxy(cluster, PodsPath(namespace)).body.message.ValueOr("")
  {
    FetchItems(proxy, cluster, PodsPath(namespace))
  }

  /** The fan-out: one pod fetch per namespace, index-aligned with the namespaces. */
  function FanOut(proxy: Proxy<Pod>, cluster: string, namespaces: seq<Namespace>): (r: seq<Fetched<Pod>>)
    ensures |r| == |namespaces|
    ensures forall i :: 0 <= i < |namespaces| ==> r[i] == FetchPodsData(proxy, cluster, namespaces[i].name)
  {
    Map(namespaces, (ns: Namespace) => FetchPodsData(proxy, cluster, ns.name))
  }

  /** `Promise.all` over the fan-out followed by the reduction: all rows, or one rejection. */
  function Aggregate(namespaces: seq<Namespace>, fetched: seq<Fetched<Pod>>): (r: Result<seq<NamespaceRow>, AggregateError>)
    requires |fetched| == |namespaces|
    ensures r.Ok? <==> forall i :: 0 <= i < |fetched| ==> fetched[i].Returned? && fetched[i].items.Some?
    ensures r.Ok? ==> |r.value| == |namespaces|
    ensures r.Ok? ==> forall i :: 0 <= i < |namespaces| ==>
      r.value[i] == Summarize(namespaces[i], fetched[i].items.value)
    ensures (exists i :: 0 <= i < |fetched| && fetched[i].Threw?) ==>
      r.Err? && r.error.FetchThrew? && exists i :: 0 <= i < |fetched| && fetched[i] == Threw(r.error.message)
    ensures r.Err? && r.error == ItemsMissing ==> forall i :: 0 <= i < |fetched| ==> fetched[i].Returned?
    ensures r.Err? && r.error.FetchThrew? ==>
      exists i :: 0 <= i < |fetched| && fetched[i] == Threw(r.error.message)
  {
    match PromiseAll(fetched)
    case Err(message) => Err(FetchThrew(message))
    case Ok(lists) => Reduce(namespaces, lists)
  }

  /**
    The table after one refresh: the new rows when the refresh resolved; when it rejected the
    state setter is never reached, so the previous rows stay on screen.
   */
  function FetchData(previous: seq<NamespaceRow>, proxy: Proxy<Pod>, cluster: string, namespaces: seq<Namespace>): (rows: seq<NamespaceRow>)
    ensures
      var fetched := FanOut(proxy, cluster, namespaces);
      if forall i :: 0 <= i < |fetched| ==> fetched[i].Returned? && fetched[i].items.Some? then
        |rows| == |namespaces| &&
        forall i :: 0 <= i < |namespaces| ==> rows[i] == Summarize(namespaces[i], fetched[i].items.value)
      else
        rows == previous
  {
    match Aggregate(namespaces, FanOut(proxy, cluster, namespaces))
    case Ok(current) => current
    case Err(_) => previous
  }

  /** Three pods: two Running, two carrying a second container. */
  function SamplePods(): seq<Pod> {
    [Pod("a", "Running", [Container, Container], None, 0),
     Pod("b", "Running", [Container], None, 0),
     Pod("c", "Pending", [Container, Container], None, 0)]
  }

  lemma SamplePodCounts()
    ensures |Filter(SamplePods(), IsRunning)| == 2
    ensures |Filter(SamplePods(), HasSidecar)| == 2
  {
    var pods := SamplePods();
    assert pods[..3] == pods;
    assert pods[..2][..1] == pods[..1];
    assert pods[..1][..0] == [];
    assert Filter(pods[..1], IsRunning) == [pods[0]];
    assert Filter(pods[..2], IsRunning) == [pods[0], pods[1]];
    assert Filter(pods[..1], HasSidecar) == [pods[0]];
    assert Filter(pods[..2], HasSidecar) == [pods[0]];
  }

  /**
    A namespace labelled for injection whose pods are two Running and two with a second
    container summarises to two running and two injected.
   */
  lemma ScenarioInjectedNamespace()
    ensures Summarize(Namespace("default", Some(map[InjectionKey := "enabled"])), SamplePods())
      == NamespaceRow("default", "enabled", 2, 2)
  {
    SamplePodCounts();
  }

  /** A namespace without the label reports "disabled". */
  lemma ScenarioUnlabelledNamespace(pods: seq<Pod>)
    ensures Summarize(Namespace("legacy", Some(map["team" := "core"])), pods).istioInjection == Disabled
  {
  }
}
