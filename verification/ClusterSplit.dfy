/** The single-file splitter. */
module ClusterSplit {
  import opened Text
  import opened Sequences
  import opened EstateModel
  import opened Datastores

  const UNCLUSTERED := "(unclustered)"

  function ClusterName(cluster: string): string {
    if Strip(cluster) == "" then UNCLUSTERED else Strip(cluster)
  }

  function AddSeen(names: seq<string>, c: string): seq<string> {
    if c in names then names else names + [c]
  }

  function HostClusters(hosts: seq<Host>): seq<string> {
    if hosts == [] then [] else AddSeen(HostClusters(hosts[..|hosts|-1]), ClusterName(hosts[|hosts|-1].cluster))
  }

  /** Every name once, as the walk over the hosts and then the VMs first meets it. */
  function Clusters(hosts: seq<Host>, vms: seq<Vm>): seq<string> {
    if vms == [] then HostClusters(hosts)
    else AddSeen(Clusters(hosts, vms[..|vms|-1]), ClusterName(vms[|vms|-1].cluster))
  }

  function HostIn(c: string): Host -> bool {
    (h: Host) => ClusterName(h.cluster) == c
  }

  function VmIn(c: string): Vm -> bool {
    (v: Vm) => ClusterName(v.cluster) == c
  }

  /** Host name, as spelled, to cluster; a later host of the same name overwrites. */
  function HostCluster(hosts: seq<Host>): map<string, string> {
    if hosts == [] then map[]
    else HostCluster(hosts[..|hosts|-1])[hosts[|hosts|-1].name := ClusterName(hosts[|hosts|-1].cluster)]
  }

  function RowIn(hostCluster: map<string, string>, c: string): HostRow -> bool {
    (r: HostRow) => r.host in hostCluster && hostCluster[r.host] == c
  }

  function UsedIn(vms: seq<Vm>, c: string): real {
    if vms == [] then 0.0
    else
      var v := vms[|vms|-1];
      UsedIn(vms[..|vms|-1], c) + (if Active(v) && ClusterName(v.cluster) == c then v.usedGb else 0.0)
  }

  function UsedByCluster(vms: seq<Vm>, names: seq<string>): map<string, real> {
    map c | c in names :: UsedIn(vms, c)
  }

  datatype Part = Part(name: string, hosts: seq<Host>, vms: seq<Vm>, perfs: seq<HostRow>, nics: seq<HostRow>,
                       stores: seq<Store>)

  function PartOf(file: File, c: string): Part
    requires Clusters(file.hosts, file.vms) != []
  {
    var names := Clusters(file.hosts, file.vms);
    var hostCluster := HostCluster(file.hosts);
    Part(c, Filter(file.hosts, HostIn(c)), Filter(file.vms, VmIn(c)),
         Filter(file.perfs, RowIn(hostCluster, c)), Filter(file.nics, RowIn(hostCluster, c)),
         StoresFor(file.stores, hostCluster, names, UsedByCluster(file.vms, names), c))
  }

  /** One part per cluster; nothing to split below two. */
  function Split(file: File): Option<seq<Part>> {
    var names := Clusters(file.hosts, file.vms);
    if |names| <= 1 then None
    else Some(seq(|names|, i requires 0 <= i < |names| => PartOf(file, names[i])))
  }

  // ── the loops ─────────────────────────────────────────────────────────────

  method DistinctClusters(hosts: seq<Host>, vms: seq<Vm>) returns (names: seq<string>)
    ensures names == Clusters(hosts, vms)
  {
    names := [];
    for i := 0 to |hosts|
      invariant names == HostClusters(hosts[..i])
    {
      assert hosts[..i+1][..i] == hosts[..i];
      var c := ClusterName(hosts[i].cluster);
      if c !in names {
        names := names + [c];
      }
    }
    assert hosts[..|hosts|] == hosts;
    for i := 0 to |vms|
      invariant names == Clusters(hosts, vms[..i])
    {
      assert vms[..i+1][..i] == vms[..i];
      var c := ClusterName(vms[i].cluster);
      if c !in names {
        names := names + [c];
      }
    }
    assert vms[..|vms|] == vms;
  }

  lemma {:induction false} ClustersCover(hosts: seq<Host>, vms: seq<Vm>)
    ensures forall i :: 0 <= i < |hosts| ==> ClusterName(hosts[i].cluster) in HostClusters(hosts)
    ensures forall i :: 0 <= i < |hosts| ==> ClusterName(hosts[i].cluster) in Clusters(hosts, vms)
    ensures forall i :: 0 <= i < |vms| ==> ClusterName(vms[i].cluster) in Clusters(hosts, vms)
    decreases |hosts| + |vms|
  {
    if vms != [] {
      ClustersCover(hosts, vms[..|vms|-1]);
    } else if hosts != [] {
      ClustersCover(hosts[..|hosts|-1], []);
    }
  }

  lemma {:induction false} ClustersFound(hosts: seq<Host>, vms: seq<Vm>)
    ensures Distinct(Clusters(hosts, vms))
    ensures forall c :: c in Clusters(hosts, vms) ==>
      (exists i :: 0 <= i < |hosts| && ClusterName(hosts[i].cluster) == c)
      || (exists i :: 0 <= i < |vms| && ClusterName(vms[i].cluster) == c)
    decreases |hosts| + |vms|
  {
    if vms != [] {
      ClustersFound(hosts, vms[..|vms|-1]);
    } else if hosts != [] {
      ClustersFound(hosts[..|hosts|-1], []);
    }
  }

  /** A cluster is listed, and once, exactly when some host or VM names it. */
  lemma ClustersMeaning(hosts: seq<Host>, vms: seq<Vm>)
    ensures Distinct(Clusters(hosts, vms))
    ensures forall c :: c in Clusters(hosts, vms) <==>
      (exists i :: 0 <= i < |hosts| && ClusterName(hosts[i].cluster) == c)
      || (exists i :: 0 <= i < |vms| && ClusterName(vms[i].cluster) == c)
  {
    ClustersFound(hosts, vms);
    ClustersCover(hosts, vms);
  }

  function RecordClusters(hosts: seq<Host>, vms: seq<Vm>): seq<string> {
    seq(|hosts|, i requires 0 <= i < |hosts| => ClusterName(hosts[i].cluster))
    + seq(|vms|, i requires 0 <= i < |vms| => ClusterName(vms[i].cluster))
  }

  lemma {:induction false} HostClustersOnce(hosts: seq<Host>)
    ensures HostClusters(hosts) == Once(RecordClusters(hosts, []))
  {
    if hosts != [] {
      var front, last := hosts[..|hosts|-1], ClusterName(hosts[|hosts|-1].cluster);
      HostClustersOnce(front);
      OncePush(RecordClusters(front, []), last);
      assert RecordClusters(hosts, []) == RecordClusters(front, []) + [last];
    }
  }

  lemma {:induction false} ClustersOnce(hosts: seq<Host>, vms: seq<Vm>)
    ensures Clusters(hosts, vms) == Once(RecordClusters(hosts, vms))
  {
    if vms == [] {
      HostClustersOnce(hosts);
    } else {
      var front, last := vms[..|vms|-1], ClusterName(vms[|vms|-1].cluster);
      ClustersOnce(hosts, front);
      OncePush(RecordClusters(hosts, front), last);
      assert RecordClusters(hosts, vms) == RecordClusters(hosts, front) + [last];
    }
  }

  /** In the order in which the hosts and then the VMs first name them. */
  lemma ClustersInOrder(hosts: seq<Host>, vms: seq<Vm>)
    ensures InOrder(Clusters(hosts, vms), RecordClusters(hosts, vms))
  {
    ClustersOnce(hosts, vms);
    OnceInOrder(RecordClusters(hosts, vms));
  }

  type Lists<T> = map<string, seq<T>>

  method GroupHosts(hosts: seq<Host>, names: seq<string>) returns (lists: Lists<Host>)
    requires forall i :: 0 <= i < |hosts| ==> ClusterName(hosts[i].cluster) in names
    ensures forall c :: c in lists <==> c in names
    ensures forall c :: c in names ==> lists[c] == Filter(hosts, HostIn(c))
  {
    lists := map c | c in names :: [];
    for i := 0 to |hosts|
      invariant forall c :: c in lists <==> c in names
      invariant forall c :: c in names ==> lists[c] == Filter(hosts[..i], HostIn(c))
    {
      var own := ClusterName(hosts[i].cluster);
      forall c | c in names
        ensures Filter(hosts[..i+1], HostIn(c)) == lists[c] + (if c == own then [hosts[i]] else [])
      {
        FilterStep(hosts, i, HostIn(c));
      }
      lists := lists[own := lists[own] + [hosts[i]]];
    }
    assert hosts[..|hosts|] == hosts;
  }

  method GroupVms(vms: seq<Vm>, names: seq<string>) returns (lists: Lists<Vm>)
    requires forall i :: 0 <= i < |vms| ==> ClusterName(vms[i].cluster) in names
    ensures forall c :: c in lists <==> c in names
    ensures forall c :: c in names ==> lists[c] == Filter(vms, VmIn(c))
  {
    lists := map c | c in names :: [];
    for i := 0 to |vms|
      invariant forall c :: c in lists <==> c in names
      invariant forall c :: c in names ==> lists[c] == Filter(vms[..i], VmIn(c))
    {
      var own := ClusterName(vms[i].cluster);
      forall c | c in names
        ensures Filter(vms[..i+1], VmIn(c)) == lists[c] + (if c == own then [vms[i]] else [])
      {
        FilterStep(vms, i, VmIn(c));
      }
      lists := lists[own := lists[own] + [vms[i]]];
    }
    assert vms[..|vms|] == vms;
  }

  method GroupRows(rows: seq<HostRow>, hostCluster: map<string, string>, names: seq<string>)
    returns (lists: Lists<HostRow>)
    requires forall h :: h in hostCluster ==> hostCluster[h] in names
    ensures forall c :: c in lists <==> c in names
    ensures forall c :: c in names ==> lists[c] == Filter(rows, RowIn(hostCluster, c))
  {
    lists := map c | c in names :: [];
    for i := 0 to |rows|
      invariant forall c :: c in lists <==> c in names
      invariant forall c :: c in names ==> lists[c] == Filter(rows[..i], RowIn(hostCluster, c))
    {
      var r := rows[i];
      forall c | c in names
        ensures Filter(rows[..i+1], RowIn(hostCluster, c))
             == lists[c] + (if r.host in hostCluster && hostCluster[r.host] == c then [r] else [])
      {
        FilterStep(rows, i, RowIn(hostCluster, c));
      }
      if r.host in hostCluster {
        var c := hostCluster[r.host];
        lists := lists[c := lists[c] + [r]];
      }
    }
    assert rows[..|rows|] == rows;
  }

  method HostClusterMap(hosts: seq<Host>, names: seq<string>) returns (hostCluster: map<string, string>)
    requires forall i :: 0 <= i < |hosts| ==> ClusterName(hosts[i].cluster) in names
    ensures hostCluster == HostCluster(hosts)
    ensures forall h :: h in hostCluster ==> hostCluster[h] in names
  {
    hostCluster := map[];
    for i := 0 to |hosts|
      invariant hostCluster == HostCluster(hosts[..i])
      invariant forall h :: h in hostCluster ==> hostCluster[h] in names
    {
      assert hosts[..i+1][..i] == hosts[..i];
      hostCluster := hostCluster[hosts[i].name := ClusterName(hosts[i].cluster)];
    }
    assert hosts[..|hosts|] == hosts;
  }

  method SplitByCluster(file: File) returns (parts: Option<seq<Part>>)
    ensures parts == Split(file)
  {
    var names := DistinctClusters(file.hosts, file.vms);
    if |names| <= 1 {
      return None;
    }
    var out := [];
    var groups := GroupFile(file, names);
    for i := 0 to |names|
      invariant |out| == i && forall j :: 0 <= j < i ==> out[j] == PartOf(file, names[j])
    {
      out := out + [groups[names[i]]];
    }
    assert out == Split(file).value;
    parts := Some(out);
  }

  method GroupFile(file: File, names: seq<string>) returns (groups: map<string, Part>)
    requires names == Clusters(file.hosts, file.vms) && names != []
    ensures forall c :: c in names ==> c in groups && groups[c] == PartOf(file, c)
  {
    ClustersCover(file.hosts, file.vms);
    var hostCluster := HostClusterMap(file.hosts, names);
    var hosts := GroupHosts(file.hosts, names);
    var vms := GroupVms(file.vms, names);
    var perfs := GroupRows(file.perfs, hostCluster, names);
    var nics := GroupRows(file.nics, hostCluster, names);
    var stores := AttributeDatastores(file.stores, hostCluster, names, UsedByCluster(file.vms, names));
    groups := map c | c in names :: Part(c, hosts[c], vms[c], perfs[c], nics[c], Bucket(stores, c));
  }

  // ── where the splitter puts each record ───────────────────────────────────

  /** The record is of the cluster of this name: its own without blanks, or the one for records of no cluster. */
  predicate OfCluster(cluster: string, name: string) {
    name == if Strip(cluster) == "" then "(unclustered)" else Strip(cluster)
  }

  predicate LastNamed(hosts: seq<Host>, j: nat, n: string) {
    j < |hosts| && hosts[j].name == n && forall i :: j < i < |hosts| ==> hosts[i].name != n
  }

  function HostsOf(name: string): Host -> bool {
    (h: Host) => OfCluster(h.cluster, name)
  }

  function VmsOf(name: string): Vm -> bool {
    (v: Vm) => OfCluster(v.cluster, name)
  }

  /** The row's host is listed, the last of that name in this cluster. */
  predicate RowFits(hosts: seq<Host>, name: string, r: HostRow) {
    exists j :: 0 <= j < |hosts| && LastNamed(hosts, j, r.host) && OfCluster(hosts[j].cluster, name)
  }

  function RowsOf(hosts: seq<Host>, name: string): HostRow -> bool {
    (r: HostRow) => RowFits(hosts, name, r)
  }

  /** The storage used by the running VMs of a cluster: a VM counts when it is on and no template. */
  lemma UsedCounts(vms: seq<Vm>, v: Vm, name: string)
    ensures UsedIn([], name) == 0.0
    ensures UsedIn(vms + [v], name)
            == UsedIn(vms, name) + (if v.poweredOn && !v.template && OfCluster(v.cluster, name) then v.usedGb else 0.0)
  {
    assert (vms + [v])[..|vms|] == vms;
  }

  lemma {:induction false} HostClusterIs(hosts: seq<Host>, n: string)
    ensures n in HostCluster(hosts) ==> exists j :: 0 <= j < |hosts| && LastNamed(hosts, j, n)
                                                     && OfCluster(hosts[j].cluster, HostCluster(hosts)[n])
    ensures n !in HostCluster(hosts) ==> forall j :: 0 <= j < |hosts| ==> hosts[j].name != n
  {
    if hosts != [] {
      var front, last := hosts[..|hosts|-1], hosts[|hosts|-1];
      HostClusterIs(front, n);
      if last.name == n {
        assert LastNamed(hosts, |front|, n);
      } else if n in HostCluster(front) {
        var j :| 0 <= j < |front| && LastNamed(front, j, n) && OfCluster(front[j].cluster, HostCluster(front)[n]);
        assert LastNamed(hosts, j, n) && hosts[j] == front[j];
      }
    }
  }

  lemma RowFitsIs(hosts: seq<Host>, name: string, r: HostRow)
    ensures RowIn(HostCluster(hosts), name)(r) <==> RowFits(hosts, name, r)
  {
    HostClusterIs(hosts, r.host);
    if r.host in HostCluster(hosts) {
      var j :| 0 <= j < |hosts| && LastNamed(hosts, j, r.host)
               && OfCluster(hosts[j].cluster, HostCluster(hosts)[r.host]);
      forall i | 0 <= i < |hosts| && LastNamed(hosts, i, r.host) ensures i == j {
      }
    }
  }

  /** A cluster's part: exactly its hosts and VMs and the rows of its hosts, each as often and in the order they come,
      and of every datastore what the cluster is due. */
  predicate IsPartFor(file: File, p: Part, name: string) {
    && p.name == name && p.hosts == Filter(file.hosts, HostsOf(name)) && p.vms == Filter(file.vms, VmsOf(name))
    && p.perfs == Filter(file.perfs, RowsOf(file.hosts, name)) && p.nics == Filter(file.nics, RowsOf(file.hosts, name))
  }

  lemma PartIs(file: File, c: string)
    requires Clusters(file.hosts, file.vms) != []
    ensures IsPartFor(file, PartOf(file, c), c)
    ensures var names := Clusters(file.hosts, file.vms);
            ReceivesAll(PartOf(file, c).stores, file.stores, HostCluster(file.hosts), names,
                        UsedByCluster(file.vms, names), c)
  {
    var names := Clusters(file.hosts, file.vms);
    ClustersMeaning(file.hosts, file.vms);
    AllReceived(file.stores, HostCluster(file.hosts), names, UsedByCluster(file.vms, names), c);
    FilterSame(file.hosts, HostIn(c), HostsOf(c));
    FilterSame(file.vms, VmIn(c), VmsOf(c));
    forall r: HostRow ensures RowIn(HostCluster(file.hosts), c)(r) == RowsOf(file.hosts, c)(r) {
      RowFitsIs(file.hosts, c, r);
    }
    FilterSame(file.perfs, RowIn(HostCluster(file.hosts), c), RowsOf(file.hosts, c));
    FilterSame(file.nics, RowIn(HostCluster(file.hosts), c), RowsOf(file.hosts, c));
  }

  /** Two clusters or more are split, in the order of their names; fewer are not. */
  lemma SplitPlaces(file: File)
    ensures var names := Clusters(file.hosts, file.vms);
            && (Split(file).Some? <==> |names| >= 2)
            && (Split(file).Some? ==>
                  && |Split(file).value| == |names|
                  && forall i :: 0 <= i < |names| ==> IsPartFor(file, Split(file).value[i], names[i]))
  {
    var names := Clusters(file.hosts, file.vms);
    if |names| >= 2 {
      forall i | 0 <= i < |names| ensures IsPartFor(file, Split(file).value[i], names[i]) {
        PartIs(file, names[i]);
      }
    }
  }
}
