/**
  The cluster picker: the cluster names offered come from the first cluster-locator method in
  the `kubernetes.clusterLocatorMethods` configuration, after a placeholder meaning "no cluster".
 */
module ClusterDropdown {
  import opened Wrappers
  import opened Sequences

  datatype ClusterEntry = ClusterEntry(name: string)

  /** One configured cluster-locator method; only its optional `clusters` list is read. */
  datatype LocatorMethod = LocatorMethod(clusters: Option<seq<ClusterEntry>>)

  /** The value of the placeholder option: no cluster selected. */
  const NoCluster := ""

  function NameOf(entry: ClusterEntry): string {
    entry.name
  }

  /**
    The cluster list after loading the configuration: empty unless the value is present, has a
    first method, and that method has a `clusters` list; then the names of that list, in order.
   */
  function ClusterNames(config: Option<seq<LocatorMethod>>): (names: seq<string>)
    ensures config.None? || |config.value| == 0 || config.value[0].clusters.None? ==> names == []
    ensures config.Some? && |config.value| > 0 && config.value[0].clusters.Some? ==>
      var clusters := config.value[0].clusters.value;
      |names| == |clusters| && forall i :: 0 <= i < |clusters| ==> names[i] == clusters[i].name
  {
    match config
    case None => []
    case Some(methods) =>
      if |methods| == 0 then []
      else
        match methods[0].clusters
        case None => []
        case Some(clusters) => Map(clusters, NameOf)
  }

  /** Only the first locator method is consulted: methods after it never change the list. */
  lemma OnlyFirstMethodCounts(first: LocatorMethod, later: seq<LocatorMethod>, others: seq<LocatorMethod>)
    ensures ClusterNames(Some([first] + later)) == ClusterNames(Some([first] + others))
  {
  }

  /** Every offered name is the name of an entry of the first method's list. */
  lemma NamesComeFromFirstMethod(config: Option<seq<LocatorMethod>>, i: nat)
    requires i < |ClusterNames(config)|
    ensures config.Some? && |config.value| > 0 && config.value[0].clusters.Some?
    ensures exists entry :: entry in config.value[0].clusters.value && entry.name == ClusterNames(config)[i]
  {
    assert config.value[0].clusters.value[i].name == ClusterNames(config)[i];
  }

  /** The options of the select element: the placeholder, then one per cluster name. */
  function Options(names: seq<string>): (options: seq<string>)
    ensures |options| == |names| + 1 && options[0] == NoCluster
    ensures forall i :: 0 <= i < |names| ==> options[i + 1] == names[i]
  {
    [NoCluster] + names
  }

  /**
    `handleSelect`: choosing option `index` forwards that option's value unchanged; the
    placeholder forwards "", which means no cluster.
   */
  function Select(names: seq<string>, index: nat): (selected: string)
    requires index <= |names|
    ensures index == 0 ==> selected == NoCluster
    ensures index > 0 ==> selected == names[index - 1]
    ensures selected == NoCluster || selected in names
  {
    Options(names)[index]
  }
}
