/** One file, no mapping: the merge and the splitter agree. */
module SplitAgreement {
  import opened Text
  import opened Sequences
  import opened EstateModel
  import opened VmClasses
  import opened Overlaps
  import opened EstateKeep
  import opened EstateRecut
  import opened EstateTargets
  import opened EstateMerge
  import ClusterSplit
  import Datastores

  predicate AllClustered(file: File) {
    && (forall i :: 0 <= i < |file.hosts| ==> Strip(file.hosts[i].cluster) != "")
    && (forall i :: 0 <= i < |file.vms| ==> Strip(file.vms[i].cluster) != "")
  }

  /** With one file nothing overlaps, so everything is kept. */
  lemma OneFileKeepsAll(file: File, resolutions: map<Entity, Choice>, d: Decisions)
    requires Decided([file], resolutions, d)
    ensures KeptOf(d, file).hosts == file.hosts
    ensures KeptOf(d, file).vms == CopiesUpTo(file, |file.vms|)
  {
    forall h | h in file.hosts ensures HostPicker(d, file.id)(h) {
      var k := HostKey(h.name);
      assert FilesWithHost([file], k) <= {file.id};
      if |FilesWithHost([file], k)| >= 2 {
        SubsetSize(FilesWithHost([file], k), {file.id});
      }
    }
    FilterAll(file.hosts, HostPicker(d, file.id));
    var copies := CopiesUpTo(file, |file.vms|);
    forall c | c in copies ensures VmPicker(d)(c) {
      OneFileNoClass(file, d, resolutions, c.node);
    }
    FilterAll(copies, VmPicker(d));
  }

  lemma SubsetSize(a: set<nat>, b: set<nat>)
    requires a <= b
    ensures |a| <= |b|
  {
    if b <= a {
      assert a == b;
    } else {
      var x :| x in b && x !in a;
      SubsetSize(a, b - {x});
    }
  }

  lemma OneFileNoClass(file: File, d: Decisions, resolutions: map<Entity, Choice>, n: VmNode)
    requires Decided([file], resolutions, d)
    ensures n !in d.vmEntity
  {
    var nodes := NodeMap(Copies([file]));
    if n in d.vmEntity {
      assert SpansFiles([file], nodes, n);
      var m :| m in nodes && SameVm([file], n, m) && m.src != n.src;
      NodesAreInFiles([file], n);
      NodesAreInFiles([file], m);
    }
  }

  function ClusterKeys(src: nat, names: seq<string>): seq<GroupKey> {
    seq(|names|, i requires 0 <= i < |names| => InFile(src, names[i]))
  }

  lemma AddAgrees(src: nat, names: seq<string>, c: string)
    ensures Add(ClusterKeys(src, names), InFile(src, c)) == ClusterKeys(src, ClusterSplit.AddSeen(names, c))
  {
    var keys := ClusterKeys(src, names);
    if c in names {
      var i :| 0 <= i < |names| && names[i] == c;
      assert keys[i] == InFile(src, c);
    } else {
      assert ClusterKeys(src, names + [c]) == keys + [InFile(src, c)];
    }
  }

  lemma {:induction false} HostGroupsAgree(src: nat, hosts: seq<Host>)
    requires forall i :: 0 <= i < |hosts| ==> Strip(hosts[i].cluster) != ""
    ensures AddHostGroups([], src, hosts) == ClusterKeys(src, ClusterSplit.HostClusters(hosts))
  {
    if hosts != [] {
      HostGroupsAgree(src, hosts[..|hosts|-1]);
      AddAgrees(src, ClusterSplit.HostClusters(hosts[..|hosts|-1]), ClusterSplit.ClusterName(hosts[|hosts|-1].cluster));
    }
  }

  lemma {:induction false} VmGroupsAgree(src: nat, hosts: seq<Host>, vms: seq<Vm>)
    requires forall i :: 0 <= i < |hosts| ==> Strip(hosts[i].cluster) != ""
    requires forall i :: 0 <= i < |vms| ==> Strip(vms[i].cluster) != ""
    ensures AddVmGroups(AddHostGroups([], src, hosts), src, vms) == ClusterKeys(src, ClusterSplit.Clusters(hosts, vms))
  {
    if vms == [] {
      HostGroupsAgree(src, hosts);
    } else {
      VmGroupsAgree(src, hosts, vms[..|vms|-1]);
      AddAgrees(src, ClusterSplit.Clusters(hosts, vms[..|vms|-1]), ClusterSplit.ClusterName(vms[|vms|-1].cluster));
    }
  }

  /** The groups of one clustered file are its clusters, in the same order. */
  lemma GroupsAgree(file: File)
    requires AllClustered(file)
    ensures Groups([file]) == ClusterKeys(file.id, ClusterSplit.Clusters(file.hosts, file.vms))
  {
    assert [file][..0] == [];
    assert Groups([]) == [];
    VmGroupsAgree(file.id, file.hosts, file.vms);
  }

  lemma DefaultIsCluster(file: File, names: seq<string>, c: string)
    requires c in names
    ensures TargetOf([file], ClusterKeys(file.id, names), map[], InFile(file.id, c)) == c
  {
  }

  lemma {:induction false} TargetNamesAgree(file: File, all: seq<string>, names: seq<string>)
    requires Distinct(names) && forall c :: c in names ==> c in all
    ensures TargetNames([file], ClusterKeys(file.id, all), map[], ClusterKeys(file.id, names)) == names
  {
    if names != [] {
      var front, c := names[..|names|-1], names[|names|-1];
      TargetNamesAgree(file, all, front);
      assert ClusterKeys(file.id, names)[..|front|] == ClusterKeys(file.id, front);
      DefaultIsCluster(file, all, c);
      assert names == front + [c];
    }
  }

  function SplitHosts(src: nat, c: string, hosts: seq<Host>): seq<Placed<Host>> {
    seq(|hosts|, i requires 0 <= i < |hosts| => Placed(c, src, hosts[i].(cluster := c)))
  }

  /** Every record of one file lands in the target named after its cluster. */
  ghost predicate ClusterTargets(targets: Targets, src: nat, names: seq<string>) {
    forall c :: c in names ==> InFile(src, c) in targets && targets[InFile(src, c)] == c
  }

  lemma {:induction false} HostsAgree(targets: Targets, src: nat, names: seq<string>, hosts: seq<Host>, c: string)
    requires ClusterTargets(targets, src, names)
    requires forall i :: 0 <= i < |hosts| ==>
              Strip(hosts[i].cluster) != "" && ClusterSplit.ClusterName(hosts[i].cluster) in names
    ensures Into(PlacedHosts(targets, src, hosts), c) == SplitHosts(src, c, Filter(hosts, ClusterSplit.HostIn(c)))
  {
    if hosts != [] {
      var front, h := hosts[..|hosts|-1], hosts[|hosts|-1];
      HostsAgree(targets, src, names, front, c);
      IntoPush(PlacedHosts(targets, src, front), PlacedHost(targets, src, h), c);
      assert ClusterSplit.HostIn(c)(h) <==> Strip(h.cluster) == c;
      assert InFile(src, Strip(h.cluster)) in targets;
      var rest := Filter(front, ClusterSplit.HostIn(c));
      assert SplitHosts(src, c, rest + [h]) == SplitHosts(src, c, rest) + [Placed(c, src, h.(cluster := c))];
    }
  }

  function PlacedCopy(c: string, src: nat, x: Copy): Placed<Copy> {
    Placed(c, src, x.(vm := x.vm.(cluster := c)))
  }

  function SplitCopies(src: nat, c: string, copies: seq<Copy>): seq<Placed<Copy>> {
    seq(|copies|, i requires 0 <= i < |copies| => PlacedCopy(c, src, copies[i]))
  }

  function CopyIn(c: string): Copy -> bool {
    (x: Copy) => ClusterSplit.ClusterName(x.vm.cluster) == c
  }

  lemma {:induction false} CopiesAgree(targets: Targets, src: nat, names: seq<string>, copies: seq<Copy>, c: string)
    requires ClusterTargets(targets, src, names)
    requires forall i :: 0 <= i < |copies| ==>
              Strip(copies[i].vm.cluster) != "" && ClusterSplit.ClusterName(copies[i].vm.cluster) in names
    ensures Into(PlacedVms(targets, src, copies), c) == SplitCopies(src, c, Filter(copies, CopyIn(c)))
  {
    if copies != [] {
      var front, x := copies[..|copies|-1], copies[|copies|-1];
      CopiesAgree(targets, src, names, front, c);
      assert InFile(src, Strip(x.vm.cluster)) in targets;
      IntoPush(PlacedVms(targets, src, front), PlacedCopy(Strip(x.vm.cluster), src, x), c);
      assert CopyIn(c)(x) <==> Strip(x.vm.cluster) == c;
      var rest := Filter(front, CopyIn(c));
      assert SplitCopies(src, c, rest + [x]) == SplitCopies(src, c, rest) + [PlacedCopy(c, src, x)];
    }
  }

  function VmsOf(copies: seq<Copy>): seq<Vm> {
    seq(|copies|, i requires 0 <= i < |copies| => copies[i].vm)
  }

  /** Filtering the copies by cluster filters the VM records. */
  lemma {:induction false} FilterCopies(copies: seq<Copy>, c: string)
    ensures VmsOf(Filter(copies, CopyIn(c))) == Filter(VmsOf(copies), ClusterSplit.VmIn(c))
  {
    if copies != [] {
      var front, x := copies[..|copies|-1], copies[|copies|-1];
      FilterCopies(front, c);
      VmsPush(front, x);
      VmsPush(Filter(front, CopyIn(c)), x);
      assert copies == front + [x];
      FilterPush(front, x, CopyIn(c));
      FilterPush(VmsOf(front), x.vm, ClusterSplit.VmIn(c));
    }
  }

  lemma VmsPush(copies: seq<Copy>, x: Copy)
    ensures VmsOf(copies + [x]) == VmsOf(copies) + [x.vm]
  {
  }

  // ── the agreement ─────────────────────────────────────────────────────────

  /** Target and part hold the same hosts and VMs in the same order; the merge
      has only stamped its target's name on them. */
  ghost predicate SameRecords(m: MergedTarget, part: ClusterSplit.Part, src: nat) {
    && m.name == part.name
    && m.hosts == SplitHosts(src, part.name, part.hosts)
    && exists copies :: VmsOf(copies) == part.vms && m.vms == SplitCopies(src, part.name, copies)
  }

  predicate KeepsAll(d: Decisions, file: File) {
    KeptOf(d, file).hosts == file.hosts && KeptOf(d, file).vms == CopiesUpTo(file, |file.vms|)
  }

  lemma OneFilePlaced(file: File, d: Decisions, targets: Targets)
    requires KeepsAll(d, file)
    ensures AllHosts(targets, KeptAll(d, [file])) == PlacedHosts(targets, file.id, file.hosts)
    ensures AllVms(targets, KeptAll(d, [file])) == PlacedVms(targets, file.id, CopiesUpTo(file, |file.vms|))
  {
    var k := KeptOf(d, file);
    assert KeptAll(d, [file]) == [k];
    OneKept(targets, k);
  }

  lemma OneKept(targets: Targets, k: Kept)
    ensures AllHosts(targets, [k]) == PlacedHosts(targets, k.src, k.hosts)
    ensures AllVms(targets, [k]) == PlacedVms(targets, k.src, k.vms)
  {
    assert [k][..0] == [];
    assert AllHosts(targets, [k]) == [] + PlacedHosts(targets, k.src, k.hosts);
    assert AllVms(targets, [k]) == [] + PlacedVms(targets, k.src, k.vms);
  }

  lemma TargetAgrees(file: File, d: Decisions, targets: Targets, c: string)
    requires KeepsAll(d, file) && AllClustered(file)
    requires c in ClusterSplit.Clusters(file.hosts, file.vms)
    requires ClusterTargets(targets, file.id, ClusterSplit.Clusters(file.hosts, file.vms))
    ensures SameRecords(TargetAt(targets, KeptAll(d, [file]), c), ClusterSplit.PartOf(file, c), file.id)
    ensures Reported(TargetAt(targets, KeptAll(d, [file]), c)) <==> c != SKIP
  {
    var names := ClusterSplit.Clusters(file.hosts, file.vms);
    var copies := CopiesUpTo(file, |file.vms|);
    OneFilePlaced(file, d, targets);
    ClusterSplit.ClustersCover(file.hosts, file.vms);
    HostsAgree(targets, file.id, names, file.hosts, c);
    CopiesAgree(targets, file.id, names, copies, c);
    FilterCopies(copies, c);
    assert VmsOf(copies) == file.vms;
    SomethingInCluster(file, c);
    var mine := Filter(copies, CopyIn(c));
    assert VmsOf(mine) == ClusterSplit.PartOf(file, c).vms;
    assert |mine| == |VmsOf(mine)|;
  }

  lemma SomethingInCluster(file: File, c: string)
    requires c in ClusterSplit.Clusters(file.hosts, file.vms)
    ensures Filter(file.hosts, ClusterSplit.HostIn(c)) != [] || Filter(file.vms, ClusterSplit.VmIn(c)) != []
  {
    ClusterSplit.ClustersMeaning(file.hosts, file.vms);
    FilterMeaning(file.hosts, ClusterSplit.HostIn(c));
    FilterMeaning(file.vms, ClusterSplit.VmIn(c));
    if i :| 0 <= i < |file.hosts| && ClusterSplit.ClusterName(file.hosts[i].cluster) == c {
      assert file.hosts[i] in Filter(file.hosts, ClusterSplit.HostIn(c));
    } else {
      var i :| 0 <= i < |file.vms| && ClusterSplit.ClusterName(file.vms[i].cluster) == c;
      assert file.vms[i] in Filter(file.vms, ClusterSplit.VmIn(c));
    }
  }

  predicate ReportedAt(targets: Targets, kept: seq<Kept>, t: string) {
    Reported(TargetAt(targets, kept, t))
  }

  function TargetsAt(targets: Targets, kept: seq<Kept>, names: seq<string>): (r: seq<MergedTarget>)
    ensures |r| == |names|
  {
    if names == [] then []
    else TargetsAt(targets, kept, names[..|names|-1]) + [TargetAt(targets, kept, names[|names|-1])]
  }

  lemma {:induction false} TargetsAtIndex(targets: Targets, kept: seq<Kept>, names: seq<string>, i: nat)
    requires i < |names|
    ensures TargetsAt(targets, kept, names)[i] == TargetAt(targets, kept, names[i])
  {
    if i < |names| - 1 {
      TargetsAtIndex(targets, kept, names[..|names|-1], i);
    }
  }

  lemma {:induction false} AllReported(targets: Targets, kept: seq<Kept>, names: seq<string>)
    requires forall i :: 0 <= i < |names| ==> ReportedAt(targets, kept, names[i])
    ensures Finished(targets, kept, names) == TargetsAt(targets, kept, names)
  {
    if names != [] {
      var n := |names| - 1;
      AllReported(targets, kept, names[..n]);
      assert ReportedAt(targets, kept, names[n]);
    }
  }

  lemma {:induction false} NoMoreFinished(targets: Targets, kept: seq<Kept>, names: seq<string>)
    ensures |Finished(targets, kept, names)| <= |names|
  {
    if names != [] {
      NoMoreFinished(targets, kept, names[..|names|-1]);
    }
  }

  lemma {:induction false} SomeUnreported(targets: Targets, kept: seq<Kept>, names: seq<string>, i: nat)
    requires i < |names| && !ReportedAt(targets, kept, names[i])
    ensures |Finished(targets, kept, names)| < |names|
  {
    if i < |names| - 1 {
      SomeUnreported(targets, kept, names[..|names|-1], i);
    } else {
      NoMoreFinished(targets, kept, names[..i]);
    }
  }

  ghost predicate Agrees(out: seq<MergedTarget>, parts: seq<ClusterSplit.Part>, src: nat) {
    |out| == |parts| && forall i :: 0 <= i < |out| ==> SameRecords(out[i], parts[i], src)
  }

  /** Merging one clustered file without a mapping gives, cluster by cluster and
      in the same order, the splitter's hosts and VMs: exactly unless a cluster
      carries the reserved name of the skipped set. */
  lemma OneFileAgrees(file: File, resolutions: map<Entity, Choice>, d: Decisions, targets: Targets, names: seq<string>)
    requires AllClustered(file) && Decided([file], resolutions, d) && MappedBy([file], map[], targets, names)
    requires |ClusterSplit.Clusters(file.hosts, file.vms)| >= 2
    ensures ClusterSplit.Split(file).Some?
    ensures Agrees(Finished(targets, KeptAll(d, [file]), names), ClusterSplit.Split(file).value, file.id)
            <==> SKIP !in ClusterSplit.Clusters(file.hosts, file.vms)
  {
    OneFileKeepsAll(file, resolutions, d);
    OneFileTargets(file, targets, names);
    KeptFileAgrees(file, d, targets, names);
  }

  /** The mapping of one clustered file: its clusters, in order, to themselves. */
  lemma OneFileTargets(file: File, targets: Targets, names: seq<string>)
    requires AllClustered(file) && MappedBy([file], map[], targets, names)
    ensures names == ClusterSplit.Clusters(file.hosts, file.vms)
    ensures ClusterTargets(targets, file.id, names)
  {
    var clusters := ClusterSplit.Clusters(file.hosts, file.vms);
    GroupsAgree(file);
    ClusterSplit.ClustersMeaning(file.hosts, file.vms);
    TargetNamesAgree(file, clusters, clusters);
    forall c | c in clusters ensures InFile(file.id, c) in targets && targets[InFile(file.id, c)] == c {
      var i :| 0 <= i < |clusters| && clusters[i] == c;
      assert ClusterKeys(file.id, clusters)[i] == InFile(file.id, c);
      DefaultIsCluster(file, clusters, c);
    }
  }

  lemma KeptFileAgrees(file: File, d: Decisions, targets: Targets, names: seq<string>)
    requires KeepsAll(d, file) && AllClustered(file)
    requires names == ClusterSplit.Clusters(file.hosts, file.vms) && ClusterTargets(targets, file.id, names)
    requires |names| >= 2
    ensures Agrees(Finished(targets, KeptAll(d, [file]), names), ClusterSplit.Split(file).value, file.id)
            <==> SKIP !in names
  {
    var kept := KeptAll(d, [file]);
    forall i | 0 <= i < |names|
      ensures TargetFits(file, targets, kept, names[i])
    {
      TargetAgrees(file, d, targets, names[i]);
    }
    if SKIP in names {
      var i :| 0 <= i < |names| && names[i] == SKIP;
      assert TargetFits(file, targets, kept, names[i]);
      SomeUnreported(targets, kept, names, i);
    } else {
      UnskippedAgree(file, targets, kept, names);
    }
  }

  ghost predicate TargetFits(file: File, targets: Targets, kept: seq<Kept>, name: string)
    requires name in ClusterSplit.Clusters(file.hosts, file.vms)
  {
    && SameRecords(TargetAt(targets, kept, name), ClusterSplit.PartOf(file, name), file.id)
    && (ReportedAt(targets, kept, name) <==> name != SKIP)
  }

  lemma UnskippedAgree(file: File, targets: Targets, kept: seq<Kept>, names: seq<string>)
    requires SKIP !in names && names == ClusterSplit.Clusters(file.hosts, file.vms) && |names| >= 2
    requires forall i :: 0 <= i < |names| ==> TargetFits(file, targets, kept, names[i])
    ensures Agrees(Finished(targets, kept, names), ClusterSplit.Split(file).value, file.id)
  {
    forall i | 0 <= i < |names| ensures ReportedAt(targets, kept, names[i]) {
      assert TargetFits(file, targets, kept, names[i]);
    }
    AllReported(targets, kept, names);
    forall i | 0 <= i < |names|
      ensures SameRecords(TargetsAt(targets, kept, names)[i], ClusterSplit.PartOf(file, names[i]), file.id)
    {
      assert TargetFits(file, targets, kept, names[i]);
      TargetsAtIndex(targets, kept, names, i);
    }
  }
}
