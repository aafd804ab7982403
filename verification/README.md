# Istio dashboard data shaping, modelled in Dafny

This project models the pure data-shaping logic of the Istio dashboard plugin
(`plugins/istio-tetrate`). It covers these parts:

- the namespace table (`PodsTable.tsx`). One pod fetch runs per namespace. Each
  namespace becomes a row with its `istio-injection` label, the number of Running
  pods and the number of pods with a sidecar. The same file formats the Ready and
  Age cells of the pod dialog.
- the VirtualService table (`VSTable.tsx`). There is one row per VirtualService.
  Gateways and hosts are joined with `", "`. Every `match[].port` and every
  `route[].destination.host` of every HTTP rule is flattened in declaration order.
- the Gateway table (`GWTable.tsx`). There is one row per Gateway. Its servers'
  hosts and `name (number/protocol)` port descriptors are stacked with `<br/>`.
- the cluster picker (`ClusterDropdown.tsx`). Cluster names come from the first
  entry of `kubernetes.clusterLocatorMethods`. The placeholder option `""` means
  "no cluster".
- the fetch decision that all three tables share. A response that is not ok
  throws an error carrying the body's `message`. An ok response yields `items`.

The cluster proxy, the wall clock and the configuration value are inputs. The
proxy is a function from `(cluster, path)` to a response (`Fetch.Proxy`). The
clock is the `now` argument of `PodsTable.FormatAge`, in integer milliseconds.
The configuration value is an `Option` argument.

Files, one module each:

| file | module | contents |
|---|---|---|
| `wrappers.dfy` | `Wrappers` | `Option` (a value that may be `undefined`) and `Result` |
| `sequences.dfy` | `Sequences` | `Filter`, `Map`, `FlatMap` with JavaScript array semantics, and their laws |
| `text.dfy` | `Text` | number-to-text as `String(n)` renders it, decimal parsing, `Join` and `Split` as JavaScript defines them, and their round trips |
| `kubernetes.dfy` | `Kubernetes` | the object `metadata` the custom-resource tables read |
| `fetch.dfy` | `Fetch` | proxy response, the fetch decision, `Promise.all`, and the value `useAsync` exposes |
| `pods_table.dfy` | `PodsTable` | pods, namespaces, the per-namespace reduction, the Ready and Age formatters |
| `vs_table.dfy` | `VirtualServices` | VirtualService records and the row projection |
| `gw_table.dfy` | `Gateways` | Gateway records, host and port cells, the rendered view |
| `cluster_dropdown.dfy` | `ClusterDropdown` | cluster-name extraction and selection |

## Behaviour worth knowing

- The VirtualService projection reads `vs.spec.http.flatMap` without a guard.
  So `http` is a required field here, and an absent one would throw rather than
  count as empty. The same holds for `match`, `route`, `gateways`, `hosts`,
  `servers`, a server's `hosts` and `port`, and a pod's `spec.containers`.
- A failed fetch throws an `Error` built from the body's `message` alone. The
  HTTP status is dropped.
- The injection column shows the label's text ("enabled", or "disabled" when it
  is unset).
- Ports appear as one `", "`-joined string per VirtualService.
- The pod fetches of a refresh run under one `Promise.all`. One failed pod fetch
  rejects the whole refresh, and the previous table stays on screen
  (`PodsTable.FetchData`). A slower, older refresh is not cancelled.

## Model

| member | source | states |
|---|---|---|
| `Fetch.Decide` | plugins/istio-tetrate/src/components/Dashboard/PodsTable.tsx:58-64 | A response that is not ok throws. The message is the body's `message`, or "" when that is absent. An ok response yields the body's `items` unchanged, absent or not. |
| `Fetch.FetchItems` | plugins/istio-tetrate/src/components/Dashboard/PodsTable.tsx:54-64 | A fetch returns exactly when the proxy's answer for that cluster and path is ok. It then returns that answer's items. Otherwise it throws that answer's body `message` ("" when absent). |
| `Fetch.PromiseAll` | plugins/istio-tetrate/src/components/Dashboard/PodsTable.tsx:86 | `Promise.all` resolves exactly when every fetch returned. Its values are then index-aligned with the fetches. When it rejects, the message belongs to a fetch that threw. |
| `Fetch.AsyncValue` | plugins/istio-tetrate/src/components/Dashboard/VSTable.tsx:51-56 | The `useAsync` value is defined exactly when the fetch settled by returning items. It is then those items. It is undefined while loading and after an error. |
| `Fetch.SettledValue` | plugins/istio-tetrate/src/components/Dashboard/VSTable.tsx:33-56 | After a settled fetch, the table sees the body's items when the response was ok, and nothing otherwise. |
| `Text.ParseNatExact` | plugins/istio-tetrate/src/components/Dashboard/VSTable.tsx:58-59 | A text reads as `n` exactly when it is `String(n)`: digits with no leading zero. Reading and the rendering `join` and template strings use are inverses in both directions. |
| `Text.ParseIntCanonical` | plugins/istio-tetrate/src/components/Dashboard/PodsTable.tsx:45-46 | Every text the integer reader accepts is `String(i)` of the integer it reads, with a minus sign only before a positive magnitude. |
| `PodsTable.FetchPodsData` | plugins/istio-tetrate/src/components/Dashboard/PodsTable.tsx:49-65 | The pod fetch of a namespace returns exactly when the proxy's answer for `/api/v1/namespaces/<ns>/pods` is ok. It returns that answer's items. Otherwise it throws that answer's body `message` ("" when absent). |
| `PodsTable.FormatReady` | plugins/istio-tetrate/src/components/Dashboard/PodsTable.tsx:29-39 | The text is "" exactly when container statuses are absent. Otherwise it parses back as `ready/total`. `total` is the number of statuses and `ready` (at most `total`) the number with `ready` set. The reader accepts only canonical decimal spellings, so with `PodsTable.ReadyCanonical` the text is exactly `<ready>/<total>`. |
| `PodsTable.ReadyCanonical` | plugins/istio-tetrate/src/components/Dashboard/PodsTable.tsx:38 | Every text the Ready reader accepts is `String(ready) + "/" + String(total)` of the counts it reads, so no other spelling (such as "02/3") parses. |
| `PodsTable.FormatAge` | plugins/istio-tetrate/src/components/Dashboard/PodsTable.tsx:41-47 | The text parses back as `<days>d`. `days` is the floor of the elapsed milliseconds over 86400000, including negative values. With `PodsTable.AgeCanonical` the text is exactly `String(days) + "d"`, with no leading zero and no "-0". |
| `PodsTable.AgeCanonical` | plugins/istio-tetrate/src/components/Dashboard/PodsTable.tsx:46 | Every text the Age reader accepts is `String(days) + "d"` of the day count it reads. |
| `PodsTable.PodDetail` | plugins/istio-tetrate/src/components/Dashboard/PodsTable.tsx:165-173 | A dialog line shows the pod's name, Ready text, phase and Age text. Restarts is blank without statuses. Otherwise it is text that reads back as the first status's count, and by `Text.ParseNatExact` that text is exactly `String(count)`. Rendering throws exactly when the status list is present but empty. |
| `PodsTable.Injection` | plugins/istio-tetrate/src/components/Dashboard/PodsTable.tsx:99 | The column is the `istio-injection` label when it is set and non-empty. It is "disabled" when labels are absent, the key is absent, or the value is "". It is never empty. |
| `PodsTable.Summarize` | plugins/istio-tetrate/src/components/Dashboard/PodsTable.tsx:88-103 | A row carries the namespace's name and injection text. `podsRunning` is the number of positions whose pod is Running. `podsWithSidecar` is the number with more than one container. Both are at most the pod count. |
| `PodsTable.AllRunning` | plugins/istio-tetrate/src/components/Dashboard/PodsTable.tsx:90-92 | The running count equals the pod count exactly when every pod is Running. |
| `PodsTable.NoSidecars` | plugins/istio-tetrate/src/components/Dashboard/PodsTable.tsx:93-95 | The sidecar count is zero exactly when every pod has at most one container. |
| `PodsTable.SidecarCountIgnoresPhase` | plugins/istio-tetrate/src/components/Dashboard/PodsTable.tsx:93-95 | Pod lists whose containers agree position by position have the same sidecar count, whatever their phases. |
| `PodsTable.RunningCountAdds` | plugins/istio-tetrate/src/components/Dashboard/PodsTable.tsx:90-92 | The running count of a concatenated pod list is the sum of the two parts' counts. |
| `PodsTable.ScenarioInjectedNamespace` | plugins/istio-tetrate/src/components/Dashboard/PodsTable.tsx:88-103 | Take a namespace labelled `enabled` with pods (Running, 2 containers), (Running, 1) and (Pending, 2). Its row is `default / enabled / 2 / 2`. |
| `PodsTable.ScenarioUnlabelledNamespace` | plugins/istio-tetrate/src/components/Dashboard/PodsTable.tsx:99 | A namespace whose labels lack `istio-injection` shows "disabled". |
| `PodsTable.Reduce` | plugins/istio-tetrate/src/components/Dashboard/PodsTable.tsx:88-103 | The reduction succeeds exactly when every pod list is defined. It then gives one row per namespace, row `i` summarising namespace `i` with list `i`. Otherwise it fails with the missing-items error. |
| `PodsTable.FanOut` | plugins/istio-tetrate/src/components/Dashboard/PodsTable.tsx:83-85 | There is one fetch per namespace. Fetch `i` is for namespace `i`'s name. |
| `PodsTable.Aggregate` | plugins/istio-tetrate/src/components/Dashboard/PodsTable.tsx:83-103 | The refresh resolves exactly when every fetch returned a defined list. Row `i` then comes from namespace `i` and fetch `i`, whatever the order of completion. If any fetch threw, it rejects with a thrown message. Any thrown-message rejection carries the message of a fetch that threw. When every fetch returned but a list is missing, it rejects with the missing-items error, which stands for the reduction's TypeError. It rejects for missing items only when every fetch returned. |
| `PodsTable.FetchData` | plugins/istio-tetrate/src/components/Dashboard/PodsTable.tsx:82-106 | When every fetch for every namespace returns a list, the table is one summary row per namespace in input order. Otherwise the previous table stays unchanged. |
| `VirtualServices.FetchAllVirtualServices` | plugins/istio-tetrate/src/components/Dashboard/VSTable.tsx:33-44 | The VirtualService fetch throws exactly when the answer at the VirtualService path is not ok, with that body's message ("" when absent). Otherwise it returns that body's items. |
| `VirtualServices.PortText` | plugins/istio-tetrate/src/components/Dashboard/VSTable.tsx:58-59 | An undefined match port joins as an empty segment. A defined port is text that reads back as the port. By `Text.ParseNatExact` it is exactly `String(port)`, so "080" is ruled out. |
| `VirtualServices.PortsInDeclarationOrder` | plugins/istio-tetrate/src/components/Dashboard/VSTable.tsx:57-59 | There is one port entry per `match`, with no deduplication. Match `j` of rule `k` is at position (matches of the rules before `k`) + `j`. |
| `VirtualServices.DestinationsInDeclarationOrder` | plugins/istio-tetrate/src/components/Dashboard/VSTable.tsx:60-62 | There is one destination entry per `route`. Route `j` of rule `k` is at position (routes of the rules before `k`) + `j`. |
| `VirtualServices.PortsRuleByRule` | plugins/istio-tetrate/src/components/Dashboard/VSTable.tsx:57-59 | When the rules are split in two parts that both have matches, the ports column is the first part's ports, then ", ", then the second part's. |
| `VirtualServices.ScenarioTwoRules` | plugins/istio-tetrate/src/components/Dashboard/VSTable.tsx:57-59 | Take two rules with matches on ports 80 and 443, then on 8080. The ports column is "80, 443, 8080". |
| `VirtualServices.RowId` | plugins/istio-tetrate/src/components/Dashboard/VSTable.tsx:65 | A row id is "vs-" followed by text that reads back as the row index. By `Text.ParseNatExact` the id is exactly "vs-" + `String(index)`. |
| `VirtualServices.RowIdsDistinct` | plugins/istio-tetrate/src/components/Dashboard/VSTable.tsx:65 | The ids `vs-<i>` of distinct positions are distinct. |
| `VirtualServices.CommaEntriesCollide` | plugins/istio-tetrate/src/components/Dashboard/VSTable.tsx:68-69 | An entry holding ", " joins to the same text as the two entries around it, so the comma-free premise of the projection is needed. |
| `VirtualServices.Project` | plugins/istio-tetrate/src/components/Dashboard/VSTable.tsx:56-73 | Name and namespace are copied from metadata, and the id reads back as the row index. The ports column splits back at ", " into exactly the flattened match ports. Destinations, gateways and hostnames split back into their lists when no entry has a comma. Each list column is "" when its list is empty. |
| `VirtualServices.Rows` | plugins/istio-tetrate/src/components/Dashboard/VSTable.tsx:56-73 | With no data there are no rows. Otherwise there is one row per VirtualService in item order, and row `i` projects item `i` at index `i`. |
| `VirtualServices.TableRows` | plugins/istio-tetrate/src/components/Dashboard/VSTable.tsx:91 | The table gets no rows while loading, after a thrown fetch, and when an ok body has no `items`. Once items arrive, row `i` is the projection of item `i` at index `i`. |
| `VirtualServices.RowsHaveDistinctIds` | plugins/istio-tetrate/src/components/Dashboard/VSTable.tsx:94 | Different rows of the table have different ids, which serve as the row keys. |
| `Gateways.FetchAllGateways` | plugins/istio-tetrate/src/components/Dashboard/GWTable.tsx:31-42 | The Gateway fetch throws exactly when the answer at the Gateway path is not ok, with that body's message ("" when absent). Otherwise it returns that body's items. |
| `Gateways.ExtractHosts` | plugins/istio-tetrate/src/components/Dashboard/GWTable.tsx:63-64 | With no servers the host cell is empty. With one server it is that server's hosts joined by `<br/>`. |
| `Gateways.ExtractHostsAppend` | plugins/istio-tetrate/src/components/Dashboard/GWTable.tsx:63-64 | The host cell is built server by server. The cells of two non-empty server lists join with a single `<br/>`. |
| `Gateways.ExtractHostsFlattens` | plugins/istio-tetrate/src/components/Dashboard/GWTable.tsx:63-64 | When every server has a host, the host cell is the `<br/>`-join of all servers' hosts concatenated in server order. |
| `Gateways.HostsOnePerLine` | plugins/istio-tetrate/src/components/Dashboard/GWTable.tsx:63-64 | When every server has a host and no host contains '<', splitting the host cell at `<br/>` gives all hosts in server order. |
| `Gateways.ServerWithoutHostsLeavesBlankLine` | plugins/istio-tetrate/src/components/Dashboard/GWTable.tsx:63-64 | A server without hosts still contributes an empty line. So the flattening above needs every server to have a host. |
| `Gateways.PortDescriptor` | plugins/istio-tetrate/src/components/Dashboard/GWTable.tsx:70-71 | When the protocol has no '/', the descriptor parses back to the server's port. By `Gateways.DescriptorCanonical` the only text that parses to that port is its `name (number/protocol)` with the number as `String(number)`. |
| `Gateways.SlashedProtocolsCollide` | plugins/istio-tetrate/src/components/Dashboard/GWTable.tsx:71 | A port whose protocol holds `" (<n>/"` has the same descriptor as a different port whose name holds it. That descriptor parses back to the other port, so the premise that protocols have no '/' is needed. |
| `Gateways.DescriptorRoundTrip` | plugins/istio-tetrate/src/components/Dashboard/GWTable.tsx:71 | Parsing `name (number/protocol)` from the right recovers name, number and protocol. |
| `Gateways.DescriptorCanonical` | plugins/istio-tetrate/src/components/Dashboard/GWTable.tsx:71 | Every text the descriptor reader accepts is the `name (number/protocol)` descriptor of the port it reads. A number with a leading zero, such as "http (080/HTTP)", is not accepted. |
| `Gateways.ExtractPorts` | plugins/istio-tetrate/src/components/Dashboard/GWTable.tsx:67-73 | With no servers the port cell is empty. With one server it is that server's port descriptor. |
| `Gateways.ExtractPortsAppend` | plugins/istio-tetrate/src/components/Dashboard/GWTable.tsx:67-73 | The port cell is built server by server. The cells of two non-empty server lists join with a single `<br/>`. |
| `Gateways.PortsOnePerServer` | plugins/istio-tetrate/src/components/Dashboard/GWTable.tsx:67-73 | Assume there is at least one server, names and protocols contain no '<', and protocols contain no '/'. Then the port cell splits at `<br/>` into exactly the servers' descriptors, one per server in server order. Each parses back to that server's port. |
| `Gateways.GatewayRow` | plugins/istio-tetrate/src/components/Dashboard/GWTable.tsx:116-134 | One Gateway gives one row, however many servers it has. Name and namespace come from metadata. The cells are the host and port cells of all its servers. With at least one server and such plain ports, the port cell has one line per server. |
| `Gateways.View` | plugins/istio-tetrate/src/components/Dashboard/GWTable.tsx:54-60 | "Loading" shows exactly while the fetch is pending. "No gateways" shows exactly when the settled value is absent or empty. Otherwise there is one row per Gateway in item order. |
| `ClusterDropdown.ClusterNames` | plugins/istio-tetrate/src/components/ClusterDropdown/ClusterDropdown.tsx:37-48 | The list stays empty when the config value is absent, has no first method, or the first method has no `clusters`. Otherwise it holds the names of that `clusters` list, same length and order. |
| `ClusterDropdown.OnlyFirstMethodCounts` | plugins/istio-tetrate/src/components/ClusterDropdown/ClusterDropdown.tsx:42-45 | Locator methods after the first never change the cluster list. |
| `ClusterDropdown.NamesComeFromFirstMethod` | plugins/istio-tetrate/src/components/ClusterDropdown/ClusterDropdown.tsx:45-48 | Every offered name is the name of an entry in the first method's `clusters`. That list exists whenever any name is offered. |
| `ClusterDropdown.Options` | plugins/istio-tetrate/src/components/ClusterDropdown/ClusterDropdown.tsx:70-75 | The placeholder "" comes first. It is followed by one option per cluster name, in order. |
| `ClusterDropdown.Select` | plugins/istio-tetrate/src/components/ClusterDropdown/ClusterDropdown.tsx:55-58 | Choosing the placeholder forwards "", meaning no cluster. Choosing option `i` forwards cluster name `i - 1` unchanged. The forwarded value is "" or an offered name. |

## Left out

- The cluster proxy call and `response.json()`. They are the `Proxy` parameter. A body that is not JSON, and a transport failure, are not modelled.
- React state, effects, `useAsync` re-runs, the dialogs and table components, and the HTML rendering of the `<br/>` cells. The cells are modelled as the HTML strings handed to the renderer.
- The YAML drill-down (`yaml.dump`). It is a foreign library whose output is not specified here.
- The concurrency of `Promise.all`. Fetches are modelled as an index-aligned list of settled outcomes.
- Fetch.PromiseAll: the model rejects with the lowest-indexed failure. JavaScript rejects with whichever failure settles first, so the contract only promises the message of some failed fetch.
- Clicking a namespace row to load its pods into the dialog. This is view wiring around the same pod fetch. The dialog's per-pod line is modelled (`PodsTable.PodDetail`).
- The tab view and its "fetch namespaces only for a non-empty cluster" guard, which is view wiring. The mock data provider of the unrelated error-tracking plugin.
- Crash paths for absent required fields, for example a VirtualService without `spec.http` or a server without `port`. These fields are required in the datatypes. The model covers two crash paths: a pod list body without `items`, which rejects the refresh, and a present but empty `containerStatuses` in the pod dialog.
- JavaScript coercions of values that are not strings, such as a numeric `message`, a numeric label value, or a `null` cluster name.
- VirtualServices.Project: the destinations, gateways and hostnames columns are pinned down only when no entry contains a comma. An entry with ", " joins to the same text as two entries (`VirtualServices.CommaEntriesCollide`), so no reading can recover such a list. Istio validates hosts, destination hosts and gateway names as DNS or Kubernetes names, which cannot contain a comma, so real resources meet the premise.
- Gateways.PortDescriptor: the parse-back promise needs a protocol without '/'. With a '/' in it, two ports can share a descriptor (`Gateways.SlashedProtocolsCollide`). Istio's port protocols are names such as HTTP, HTTPS, GRPC, TCP and TLS, without '/', so real resources meet the premise.
- PodsTable.FormatAge: floating-point division and invalid timestamps (`NaN`) are not modelled. Timestamps are integer milliseconds, and the day count is the exact floor.
- Errors thrown while reading the cluster configuration, which the picker catches and shows as an error message.
