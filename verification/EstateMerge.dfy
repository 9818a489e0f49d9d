/** The merge as a whole, and what its targets hold. */
module EstateMerge {
  import opened Text
  import opened Sequences
  import opened EstateModel
  import opened Overlaps
  import opened EstateKeep
  import opened EstateRecut
  import opened EstateTargets
  import opened Datastores

  datatype MergedTarget = MergedTarget(name: string, hosts: seq<Placed<Host>>, vms: seq<Placed<Copy>>,
                                       perfs: seq<Placed<HostRow>>, nics: seq<Placed<HostRow>>,
                                       stores: seq<Placed<Store>>)

  function TargetAt(targets: Targets, kept: seq<Kept>, t: string): MergedTarget {
    MergedTarget(t, Into(AllHosts(targets, kept), t), Into(AllVms(targets, kept), t),
                 Into(AllPerfs(targets, kept), t), Into(AllNics(targets, kept), t), StoresInto(targets, kept, t))
  }

  /** A target is reported unless it is the skipped set or holds no host and no VM. */
  predicate Reported(m: MergedTarget) {
    m.name != SKIP && (m.hosts != [] || m.vms != [])
  }

  function Finished(targets: Targets, kept: seq<Kept>, names: seq<string>): seq<MergedTarget> {
    if names == [] then []
    else
      var m := TargetAt(targets, kept, names[|names|-1]);
      var rest := Finished(targets, kept, names[..|names|-1]);
      if Reported(m) then rest + [m] else rest
  }

  /** The groups are mapped as the merge maps them. */
  ghost predicate MappedBy(live: seq<File>, mapping: Mapping, targets: Targets, names: seq<string>) {
    && (forall g :: g in targets <==> g in Groups(live))
    && (forall g :: g in targets ==> targets[g] == TargetOf(live, Groups(live), mapping, g))
    && names == TargetNames(live, Groups(live), mapping, Groups(live))
    && Distinct(names)
    && (forall t :: t in names <==> exists g :: g in Groups(live) && TargetOf(live, Groups(live), mapping, g) == t)
  }

  /** The targets in order, without the skipped set and the empty ones. */
  method Finish(targets: Targets, ghost kept: seq<Kept>, names: seq<string>, r: Recut) returns (out: seq<MergedTarget>)
    requires RecutOf(r, targets, kept)
    ensures out == Finished(targets, kept, names)
  {
    out := [];
    for i := 0 to |names|
      invariant out == Finished(targets, kept, names[..i])
    {
      assert names[..i+1][..i] == names[..i];
      var t := names[i];
      var m := MergedTarget(t, ListAt(r.hosts, t), ListAt(r.vms, t), ListAt(r.perfs, t), ListAt(r.nics, t),
                            ListAt(r.stores, t));
      assert m == TargetAt(targets, kept, t);
      if t == SKIP || (m.hosts == [] && m.vms == []) {
        continue;
      }
      out := out + [m];
    }
    assert names[..|names|] == names;
  }

  /** The whole merge: the reported targets, with the choices made and the mapping used. */
  method Merge(live: seq<File>, resolutions: map<Entity, Choice>, mapping: Mapping)
    returns (out: seq<MergedTarget>, d: Decisions, targets: Targets, names: seq<string>)
    requires DistinctIds(live)
    ensures Decided(live, resolutions, d) && MappedBy(live, mapping, targets, names)
    ensures out == Finished(targets, KeptAll(d, live), names)
  {
    d := Decide(live, resolutions);
    var kept := Keep(d, live);
    var groups := CollectGroups(live);
    targets, names := MapGroups(live, groups, mapping);
    KeptRecordsMapped(live, d, targets);
    assert kept == KeptAll(d, live);
    var r := RecutAll(targets, kept);
    out := Finish(targets, kept, names, r);
  }

  /** A kept record's group is one of the groups. */
  lemma KeptRecordsMapped(live: seq<File>, d: Decisions, targets: Targets)
    requires forall g :: g in targets <==> g in Groups(live)
    ensures forall i :: 0 <= i < |live| ==>
              HostsMapped(targets, KeptOf(d, live[i])) && VmsMapped(targets, KeptOf(d, live[i]))
  {
    forall i | 0 <= i < |live|
      ensures HostsMapped(targets, KeptOf(d, live[i])) && VmsMapped(targets, KeptOf(d, live[i]))
    {
      KeptHostsMapped(live, d, targets, i);
      KeptVmsMapped(live, d, targets, i);
    }
  }

  lemma KeptHostsMapped(live: seq<File>, d: Decisions, targets: Targets, i: nat)
    requires i < |live| && forall g :: g in targets <==> g in Groups(live)
    ensures HostsMapped(targets, KeptOf(d, live[i]))
  {
    var k := KeptOf(d, live[i]);
    FilterMeaning(live[i].hosts, HostPicker(d, live[i].id));
    forall j | 0 <= j < |k.hosts| ensures GroupOf(k.src, k.hosts[j].cluster) in targets {
      assert k.hosts[j] in live[i].hosts;
      HostGrouped(live, i, k.hosts[j]);
    }
  }

  lemma HostGrouped(live: seq<File>, i: nat, h: Host)
    requires i < |live| && h in live[i].hosts
    ensures GroupOf(live[i].id, h.cluster) in Groups(live)
  {
    GroupsCover(live);
    assert FileGrouped(live[i], Groups(live));
    var n :| 0 <= n < |live[i].hosts| && live[i].hosts[n] == h;
  }

  lemma KeptVmsMapped(live: seq<File>, d: Decisions, targets: Targets, i: nat)
    requires i < |live| && forall g :: g in targets <==> g in Groups(live)
    ensures VmsMapped(targets, KeptOf(d, live[i]))
  {
    var k := KeptOf(d, live[i]);
    forall j | 0 <= j < |k.vms| ensures GroupOf(k.src, k.vms[j].vm.cluster) in targets {
      KeptCopies(d, live[i], k.vms[j]);
      GroupsCover(live);
    }
  }

  // ── nothing lost, nothing twice ───────────────────────────────────────────

  ghost function SumInto<T>(all: seq<Placed<T>>, names: seq<string>): multiset<Placed<T>> {
    if names == [] then multiset{} else SumInto(all, names[..|names|-1]) + multiset(Into(all, names[|names|-1]))
  }

  lemma {:induction false} SumPlaced<T>(all: seq<Placed<T>>, p: Placed<T>, names: seq<string>)
    requires Distinct(names)
    ensures SumInto(all + [p], names) == SumInto(all, names) + (if p.target in names then multiset{p} else multiset{})
  {
    if names != [] {
      var front, t := names[..|names|-1], names[|names|-1];
      SumPlaced(all, p, front);
      IntoPush(all, p, t);
      assert names == front + [t];
      assert multiset(Into(all + [p], t)) == multiset(Into(all, t)) + (if p.target == t then multiset{p} else multiset{});
    }
  }

  lemma {:induction false} SumNothing<T>(names: seq<string>)
    ensures SumInto<T>([], names) == multiset{}
  {
    if names != [] {
      SumNothing<T>(names[..|names|-1]);
    }
  }

  /** Sorting records by target neither loses nor repeats one. */
  lemma {:induction false} Partition<T>(all: seq<Placed<T>>, names: seq<string>)
    requires Distinct(names) && forall i :: 0 <= i < |all| ==> all[i].target in names
    ensures SumInto(all, names) == multiset(all)
  {
    if all == [] {
      SumNothing<T>(names);
    } else {
      var front, p := all[..|all|-1], all[|all|-1];
      Partition(front, names);
      SumPlaced(front, p, names);
      assert all == front + [p];
    }
  }

  /** Everything of one kind that the reported targets hold. */
  ghost function Collect<T>(out: seq<MergedTarget>, sel: MergedTarget -> seq<Placed<T>>): multiset<Placed<T>> {
    if out == [] then multiset{} else Collect(out[..|out|-1], sel) + multiset(sel(out[|out|-1]))
  }

  function HostList(): MergedTarget -> seq<Placed<Host>> { (m: MergedTarget) => m.hosts }
  function VmList(): MergedTarget -> seq<Placed<Copy>> { (m: MergedTarget) => m.vms }
  function PerfList(): MergedTarget -> seq<Placed<HostRow>> { (m: MergedTarget) => m.perfs }
  function NicList(): MergedTarget -> seq<Placed<HostRow>> { (m: MergedTarget) => m.nics }

  /** What is in the skipped set, if any group was skipped. */
  ghost function SkippedOf<T>(all: seq<Placed<T>>, names: seq<string>): multiset<Placed<T>> {
    if SKIP in names then multiset(Into(all, SKIP)) else multiset{}
  }

  /** A target without hosts and VMs has none of these records either. */
  ghost predicate NothingHidden<T>(targets: Targets, kept: seq<Kept>, all: seq<Placed<T>>, t: string) {
    Into(AllHosts(targets, kept), t) == [] && Into(AllVms(targets, kept), t) == [] ==> Into(all, t) == []
  }

  lemma CollectPush<T>(out: seq<MergedTarget>, m: MergedTarget, sel: MergedTarget -> seq<Placed<T>>)
    ensures Collect(out + [m], sel) == Collect(out, sel) + multiset(sel(m))
  {
    assert (out + [m])[..|out|] == out;
  }

  lemma SkippedPush<T>(all: seq<Placed<T>>, names: seq<string>, t: string)
    requires t !in names
    ensures SkippedOf(all, names + [t])
            == SkippedOf(all, names) + (if t == SKIP then multiset(Into(all, SKIP)) else multiset{})
  {
  }

  /** One more target: reported, skipped, or empty. */
  lemma CollectedStep<T>(rest: seq<MergedTarget>, m: MergedTarget, all: seq<Placed<T>>, names: seq<string>, t: string,
                         sel: MergedTarget -> seq<Placed<T>>)
    requires t !in names && m.name == t && sel(m) == Into(all, t)
    requires !Reported(m) && t != SKIP ==> Into(all, t) == []
    ensures Collect(if Reported(m) then rest + [m] else rest, sel) + SkippedOf(all, names + [t])
            == Collect(rest, sel) + SkippedOf(all, names) + multiset(Into(all, t))
  {
    SkippedPush(all, names, t);
    if Reported(m) {
      CollectPush(rest, m, sel);
    }
  }

  /** Reported targets and skipped set together hold what the targets hold. */
  lemma {:induction false} Collected<T>(targets: Targets, kept: seq<Kept>, names: seq<string>,
                                        all: seq<Placed<T>>, sel: MergedTarget -> seq<Placed<T>>)
    requires Distinct(names)
    requires forall t :: sel(TargetAt(targets, kept, t)) == Into(all, t)
    requires forall t :: t in names ==> NothingHidden(targets, kept, all, t)
    ensures Collect(Finished(targets, kept, names), sel) + SkippedOf(all, names) == SumInto(all, names)
  {
    if names != [] {
      var front, t := names[..|names|-1], names[|names|-1];
      assert names == front + [t];
      Collected(targets, kept, front, all, sel);
      var m := TargetAt(targets, kept, t);
      assert NothingHidden(targets, kept, all, t) && sel(m) == Into(all, t);
      CollectedStep(Finished(targets, kept, front), m, all, front, t, sel);
    }
  }

  // ── where the records of one file go ──────────────────────────────────────

  function PlacedHost(targets: Targets, src: nat, h: Host): Placed<Host> {
    var t := Tgt(targets, src, h.cluster);
    Placed(t, src, h.(cluster := t))
  }

  lemma {:induction false} PlacedHostsMeaning(targets: Targets, src: nat, hosts: seq<Host>)
    ensures |PlacedHosts(targets, src, hosts)| == |hosts|
    ensures forall i :: 0 <= i < |hosts| ==> PlacedHosts(targets, src, hosts)[i] == PlacedHost(targets, src, hosts[i])
  {
    if hosts != [] {
      PlacedHostsMeaning(targets, src, hosts[..|hosts|-1]);
    }
  }

  function PlacedVm(targets: Targets, src: nat, c: Copy): Placed<Copy> {
    var t := Tgt(targets, src, c.vm.cluster);
    Placed(t, src, c.(vm := c.vm.(cluster := t)))
  }

  lemma {:induction false} PlacedVmsMeaning(targets: Targets, src: nat, vms: seq<Copy>)
    ensures |PlacedVms(targets, src, vms)| == |vms|
    ensures forall i :: 0 <= i < |vms| ==> PlacedVms(targets, src, vms)[i] == PlacedVm(targets, src, vms[i])
  {
    if vms != [] {
      PlacedVmsMeaning(targets, src, vms[..|vms|-1]);
    }
  }

  predicate LastOfKey(hosts: seq<Host>, i: nat, k: string) {
    i < |hosts| && HostKey(hosts[i].name) == k && forall j :: i < j < |hosts| ==> HostKey(hosts[j].name) != k
  }

  lemma {:induction false} HostTargetKeys(targets: Targets, src: nat, hosts: seq<Host>, k: string)
    ensures k in HostTargets(targets, src, hosts) <==> k in KeysOf(hosts)
  {
    if hosts != [] {
      HostTargetKeys(targets, src, hosts[..|hosts|-1], k);
    }
  }

  lemma LastPush(front: seq<Host>, last: Host, i: nat, k: string)
    requires LastOfKey(front, i, k) && HostKey(last.name) != k
    ensures LastOfKey(front + [last], i, k)
  {
  }

  lemma HostTargetsPush(targets: Targets, src: nat, front: seq<Host>, last: Host)
    ensures HostTargets(targets, src, front + [last])
            == HostTargets(targets, src, front)[HostKey(last.name) := Tgt(targets, src, last.cluster)]
  {
    assert (front + [last])[..|front|] == front;
  }

  lemma {:induction false} LastHost(targets: Targets, src: nat, hosts: seq<Host>, k: string) returns (i: nat)
    requires k in HostTargets(targets, src, hosts)
    ensures LastOfKey(hosts, i, k) && HostTargets(targets, src, hosts)[k] == Tgt(targets, src, hosts[i].cluster)
  {
    var front, last := hosts[..|hosts|-1], hosts[|hosts|-1];
    assert hosts == front + [last];
    HostTargetsPush(targets, src, front, last);
    if HostKey(last.name) == k {
      i := |front|;
    } else {
      i := LastHost(targets, src, front, k);
      LastPush(front, last, i, k);
    }
  }

  /** A host key's target is that of the last host with the key. */
  lemma HostTargetsMeaning(targets: Targets, src: nat, hosts: seq<Host>, k: string)
    ensures k in HostTargets(targets, src, hosts) <==> k in KeysOf(hosts)
    ensures k in HostTargets(targets, src, hosts) ==>
      exists i: nat :: LastOfKey(hosts, i, k)
                       && HostTargets(targets, src, hosts)[k] == Tgt(targets, src, hosts[i].cluster)
  {
    HostTargetKeys(targets, src, hosts, k);
    if k in HostTargets(targets, src, hosts) {
      var i := LastHost(targets, src, hosts, k);
    }
  }

  /** Every row of a kept host is placed, in order, where its host's target is. */
  lemma {:induction false} RowsAllPlaced(hostT: map<string, string>, src: nat, rows: seq<HostRow>)
    requires forall i :: 0 <= i < |rows| ==> HostKey(rows[i].host) in hostT && hostT[HostKey(rows[i].host)] != ""
    ensures |PlacedRows(hostT, src, rows)| == |rows|
    ensures forall i :: 0 <= i < |rows| ==>
      PlacedRows(hostT, src, rows)[i] == Placed(hostT[HostKey(rows[i].host)], src, rows[i])
  {
    if rows != [] {
      RowsAllPlaced(hostT, src, rows[..|rows|-1]);
    }
  }

  // ── every kept record has a place ─────────────────────────────────────────

  predicate AllIn<T>(all: seq<Placed<T>>, names: seq<string>) {
    forall i :: 0 <= i < |all| ==> all[i].target in names
  }

  /** Every group of a kept record is mapped to one of the named targets. */
  predicate Mapped(targets: Targets, kept: seq<Kept>, names: seq<string>) {
    && (forall i :: 0 <= i < |kept| ==> HostsMapped(targets, kept[i]) && VmsMapped(targets, kept[i]))
    && (forall g :: g in targets ==> targets[g] in names && targets[g] != "")
  }

  lemma {:induction false} HostsHavePlaces(targets: Targets, kept: seq<Kept>, names: seq<string>)
    requires Mapped(targets, kept, names)
    ensures AllIn(AllHosts(targets, kept), names)
  {
    if kept != [] {
      HostsHavePlaces(targets, kept[..|kept|-1], names);
      var k := kept[|kept|-1];
      PlacedHostsMeaning(targets, k.src, k.hosts);
      assert AllIn(PlacedHosts(targets, k.src, k.hosts), names);
    }
  }

  lemma {:induction false} VmsHavePlaces(targets: Targets, kept: seq<Kept>, names: seq<string>)
    requires Mapped(targets, kept, names)
    ensures AllIn(AllVms(targets, kept), names)
  {
    if kept != [] {
      VmsHavePlaces(targets, kept[..|kept|-1], names);
      var k := kept[|kept|-1];
      PlacedVmsMeaning(targets, k.src, k.vms);
      assert AllIn(PlacedVms(targets, k.src, k.vms), names);
    }
  }

  /** A host key's target is the target of one of the file's hosts. */
  lemma HostTargetNamed(targets: Targets, k: Kept, names: seq<string>, key: string)
    requires HostsMapped(targets, k) && (forall g :: g in targets ==> targets[g] in names && targets[g] != "")
    requires key in HostTargets(targets, k.src, k.hosts)
    ensures var t := HostTargets(targets, k.src, k.hosts)[key]; t in names && t != ""
  {
    HostTargetsMeaning(targets, k.src, k.hosts, key);
  }

  lemma {:induction false} RowsIn(targets: Targets, k: Kept, names: seq<string>, rows: seq<HostRow>)
    requires HostsMapped(targets, k) && (forall g :: g in targets ==> targets[g] in names && targets[g] != "")
    ensures AllIn(PlacedRows(HostTargets(targets, k.src, k.hosts), k.src, rows), names)
  {
    if rows != [] {
      RowsIn(targets, k, names, rows[..|rows|-1]);
      var key := HostKey(rows[|rows|-1].host);
      if key in HostTargets(targets, k.src, k.hosts) {
        HostTargetNamed(targets, k, names, key);
      }
    }
  }

  lemma {:induction false} RowsHavePlaces(targets: Targets, kept: seq<Kept>, names: seq<string>)
    requires Mapped(targets, kept, names)
    ensures AllIn(AllPerfs(targets, kept), names) && AllIn(AllNics(targets, kept), names)
  {
    if kept != [] {
      RowsHavePlaces(targets, kept[..|kept|-1], names);
      RowsIn(targets, kept[|kept|-1], names, kept[|kept|-1].perfs);
      RowsIn(targets, kept[|kept|-1], names, kept[|kept|-1].nics);
    }
  }

  /** No kept row is dropped for want of a host: each is placed, in order. */
  lemma KeptRowsPlaced(d: Decisions, file: File, targets: Targets, names: seq<string>)
    requires HostsMapped(targets, KeptOf(d, file))
    requires forall g :: g in targets ==> targets[g] in names && targets[g] != ""
    ensures var k, hostT := KeptOf(d, file), HostTargets(targets, file.id, KeptOf(d, file).hosts);
            && |PlacedRows(hostT, k.src, k.perfs)| == |k.perfs| && |PlacedRows(hostT, k.src, k.nics)| == |k.nics|
            && (forall i :: 0 <= i < |k.perfs| ==> PlacedRows(hostT, k.src, k.perfs)[i].rec == k.perfs[i])
            && (forall i :: 0 <= i < |k.nics| ==> PlacedRows(hostT, k.src, k.nics)[i].rec == k.nics[i])
  {
    var k := KeptOf(d, file);
    var hostT, keys := HostTargets(targets, k.src, k.hosts), KeysOf(k.hosts);
    FilterMeaning(file.perfs, RowPicker(keys));
    FilterMeaning(file.nics, RowPicker(keys));
    forall r: HostRow | HostKey(r.host) in keys
      ensures HostKey(r.host) in hostT && hostT[HostKey(r.host)] != ""
    {
      HostTargetsMeaning(targets, k.src, k.hosts, HostKey(r.host));
      HostTargetNamed(targets, k, names, HostKey(r.host));
    }
    RowsKeyed(k.perfs, keys);
    RowsKeyed(k.nics, keys);
    RowsAllPlaced(hostT, k.src, k.perfs);
    RowsAllPlaced(hostT, k.src, k.nics);
  }

  lemma RowsKeyed(rows: seq<HostRow>, keys: set<string>)
    requires forall r :: r in rows ==> HostKey(r.host) in keys
    ensures forall i :: 0 <= i < |rows| ==> HostKey(rows[i].host) in keys
  {
    forall i | 0 <= i < |rows| ensures HostKey(rows[i].host) in keys {
      assert rows[i] in rows;
    }
  }

  // ── rows and datastores follow hosts and VMs ──────────────────────────────

  /** Some host or VM of this file was put in target t. */
  ghost predicate FileReaches(targets: Targets, k: Kept, t: string) {
    || (exists j :: 0 <= j < |k.hosts| && Tgt(targets, k.src, k.hosts[j].cluster) == t)
    || (exists j :: 0 <= j < |k.vms| && Tgt(targets, k.src, k.vms[j].vm.cluster) == t)
  }

  ghost predicate TargetHolds(targets: Targets, kept: seq<Kept>, t: string) {
    Into(AllHosts(targets, kept), t) != [] || Into(AllVms(targets, kept), t) != []
  }

  lemma InList<T>(all: seq<Placed<T>>, p: Placed<T>)
    requires p in all
    ensures Into(all, p.target) != []
  {
    FilterMeaning(all, TargetIs(p.target));
    assert p in Into(all, p.target);
  }

  lemma {:induction false} HostInAll(targets: Targets, kept: seq<Kept>, i: nat, j: nat)
    requires i < |kept| && j < |kept[i].hosts|
    ensures PlacedHost(targets, kept[i].src, kept[i].hosts[j]) in AllHosts(targets, kept)
    decreases |kept|
  {
    var n := |kept| - 1;
    if i < n {
      HostInAll(targets, kept[..n], i, j);
      var p := PlacedHost(targets, kept[i].src, kept[i].hosts[j]);
      assert kept[..n][i] == kept[i];
      assert p in AllHosts(targets, kept[..n]);
      assert p in AllHosts(targets, kept);
    } else {
      PlacedHostsMeaning(targets, kept[n].src, kept[n].hosts);
      var p := PlacedHosts(targets, kept[n].src, kept[n].hosts)[j];
      assert p in PlacedHosts(targets, kept[n].src, kept[n].hosts);
      assert p in AllHosts(targets, kept);
    }
  }

  lemma {:induction false} VmInAll(targets: Targets, kept: seq<Kept>, i: nat, j: nat)
    requires i < |kept| && j < |kept[i].vms|
    ensures PlacedVm(targets, kept[i].src, kept[i].vms[j]) in AllVms(targets, kept)
    decreases |kept|
  {
    var n := |kept| - 1;
    if i < n {
      VmInAll(targets, kept[..n], i, j);
      var p := PlacedVm(targets, kept[i].src, kept[i].vms[j]);
      assert kept[..n][i] == kept[i];
      assert p in AllVms(targets, kept[..n]);
      assert p in AllVms(targets, kept);
    } else {
      PlacedVmsMeaning(targets, kept[n].src, kept[n].vms);
      var p := PlacedVms(targets, kept[n].src, kept[n].vms)[j];
      assert p in PlacedVms(targets, kept[n].src, kept[n].vms);
      assert p in AllVms(targets, kept);
    }
  }

  lemma ReachedIsHeld(targets: Targets, kept: seq<Kept>, i: nat, t: string)
    requires i < |kept| && FileReaches(targets, kept[i], t)
    ensures TargetHolds(targets, kept, t)
  {
    var k := kept[i];
    if j :| 0 <= j < |k.hosts| && Tgt(targets, k.src, k.hosts[j].cluster) == t {
      HostInAll(targets, kept, i, j);
      InList(AllHosts(targets, kept), PlacedHost(targets, k.src, k.hosts[j]));
    } else {
      var j :| 0 <= j < |k.vms| && Tgt(targets, k.src, k.vms[j].vm.cluster) == t;
      VmInAll(targets, kept, i, j);
      InList(AllVms(targets, kept), PlacedVm(targets, k.src, k.vms[j]));
    }
  }

  lemma {:induction false} RowFollowsHost(targets: Targets, k: Kept, rows: seq<HostRow>, p: Placed<HostRow>)
    requires p in PlacedRows(HostTargets(targets, k.src, k.hosts), k.src, rows)
    ensures FileReaches(targets, k, p.target)
  {
    var hostT := HostTargets(targets, k.src, k.hosts);
    var n := |rows| - 1;
    if p in PlacedRows(hostT, k.src, rows[..n]) {
      RowFollowsHost(targets, k, rows[..n], p);
    } else {
      HostTargetsMeaning(targets, k.src, k.hosts, HostKey(rows[n].host));
    }
  }

  lemma {:induction false} PerfSource(targets: Targets, kept: seq<Kept>, p: Placed<HostRow>) returns (i: nat)
    requires p in AllPerfs(targets, kept)
    ensures i < |kept| && FileReaches(targets, kept[i], p.target)
  {
    var n := |kept| - 1;
    if p in AllPerfs(targets, kept[..n]) {
      i := PerfSource(targets, kept[..n], p);
    } else {
      RowFollowsHost(targets, kept[n], kept[n].perfs, p);
      i := n;
    }
  }

  lemma {:induction false} NicSource(targets: Targets, kept: seq<Kept>, p: Placed<HostRow>) returns (i: nat)
    requires p in AllNics(targets, kept)
    ensures i < |kept| && FileReaches(targets, kept[i], p.target)
  {
    var n := |kept| - 1;
    if p in AllNics(targets, kept[..n]) {
      i := NicSource(targets, kept[..n], p);
    } else {
      RowFollowsHost(targets, kept[n], kept[n].nics, p);
      i := n;
    }
  }

  /** A row never lands in a target that holds no host and no VM. */
  lemma RowsNotHidden(targets: Targets, kept: seq<Kept>, t: string)
    ensures NothingHidden(targets, kept, AllPerfs(targets, kept), t)
    ensures NothingHidden(targets, kept, AllNics(targets, kept), t)
  {
    FilterMeaning(AllPerfs(targets, kept), TargetIs(t));
    FilterMeaning(AllNics(targets, kept), TargetIs(t));
    if Into(AllPerfs(targets, kept), t) != [] {
      var p := Into(AllPerfs(targets, kept), t)[0];
      assert p in Into(AllPerfs(targets, kept), t);
      var i := PerfSource(targets, kept, p);
      ReachedIsHeld(targets, kept, i, t);
    }
    if Into(AllNics(targets, kept), t) != [] {
      var p := Into(AllNics(targets, kept), t)[0];
      assert p in Into(AllNics(targets, kept), t);
      var i := NicSource(targets, kept, p);
      ReachedIsHeld(targets, kept, i, t);
    }
  }

  // ── the headline ──────────────────────────────────────────────────────────

  lemma TargetsNamed(live: seq<File>, mapping: Mapping, targets: Targets, names: seq<string>)
    requires MappedBy(live, mapping, targets, names)
    ensures forall g :: g in targets ==> targets[g] in names && targets[g] != ""
  {
    GroupsClustered(live);
    forall g | g in targets ensures targets[g] in names && targets[g] != "" {
      assert g in Groups(live);
    }
  }

  lemma {:induction false} GroupsClustered(live: seq<File>)
    ensures forall g :: g in Groups(live) && g.InFile? ==> g.cluster != ""
  {
    if live != [] {
      var n := |live| - 1;
      GroupsClustered(live[..n]);
      HostGroupsClustered(Groups(live[..n]), live[n].id, live[n].hosts);
      VmGroupsClustered(AddHostGroups(Groups(live[..n]), live[n].id, live[n].hosts), live[n].id, live[n].vms);
    }
  }

  lemma {:induction false} HostGroupsClustered(keys: seq<GroupKey>, src: nat, hosts: seq<Host>)
    requires forall g :: g in keys && g.InFile? ==> g.cluster != ""
    ensures forall g :: g in AddHostGroups(keys, src, hosts) && g.InFile? ==> g.cluster != ""
  {
    if hosts != [] {
      HostGroupsClustered(keys, src, hosts[..|hosts|-1]);
    }
  }

  lemma {:induction false} VmGroupsClustered(keys: seq<GroupKey>, src: nat, vms: seq<Vm>)
    requires forall g :: g in keys && g.InFile? ==> g.cluster != ""
    ensures forall g :: g in AddVmGroups(keys, src, vms) && g.InFile? ==> g.cluster != ""
  {
    if vms != [] {
      VmGroupsClustered(keys, src, vms[..|vms|-1]);
    }
  }

  /** For every mapping, the reported targets and the skipped set together hold
      each kept host, VM, performance row and NIC row once, and nothing else. */
  lemma NothingLostNothingTwice(live: seq<File>, mapping: Mapping, d: Decisions, targets: Targets, names: seq<string>)
    requires MappedBy(live, mapping, targets, names)
    ensures var kept := KeptAll(d, live);
            var out := Finished(targets, kept, names);
            && Collect(out, HostList()) + SkippedOf(AllHosts(targets, kept), names) == multiset(AllHosts(targets, kept))
            && Collect(out, VmList()) + SkippedOf(AllVms(targets, kept), names) == multiset(AllVms(targets, kept))
            && Collect(out, PerfList()) + SkippedOf(AllPerfs(targets, kept), names) == multiset(AllPerfs(targets, kept))
            && Collect(out, NicList()) + SkippedOf(AllNics(targets, kept), names) == multiset(AllNics(targets, kept))
  {
    var kept := KeptAll(d, live);
    KeptRecordsMapped(live, d, targets);
    TargetsNamed(live, mapping, targets, names);
    HostsHavePlaces(targets, kept, names);
    VmsHavePlaces(targets, kept, names);
    RowsHavePlaces(targets, kept, names);
    forall t
      ensures NothingHidden(targets, kept, AllPerfs(targets, kept), t)
      ensures NothingHidden(targets, kept, AllNics(targets, kept), t)
    {
      RowsNotHidden(targets, kept, t);
    }
    Collected(targets, kept, names, AllHosts(targets, kept), HostList());
    Collected(targets, kept, names, AllVms(targets, kept), VmList());
    Collected(targets, kept, names, AllPerfs(targets, kept), PerfList());
    Collected(targets, kept, names, AllNics(targets, kept), NicList());
    Partition(AllHosts(targets, kept), names);
    Partition(AllVms(targets, kept), names);
    Partition(AllPerfs(targets, kept), names);
    Partition(AllNics(targets, kept), names);
  }

  // ── datastores ────────────────────────────────────────────────────────────

  lemma {:induction false} StoresForReach(stores: seq<Store>, hostCluster: map<string, string>, names: seq<string>,
                                          used: map<string, real>, cs: seq<string>, c: string)
    requires names != [] && Covers(cs, hostCluster, names) && c !in cs
    ensures StoresFor(stores, hostCluster, names, used, c) == []
  {
    if stores != [] {
      var s := stores[|stores|-1];
      StoresForReach(stores[..|stores|-1], hostCluster, names, used, cs, c);
      SharesReach(s, hostCluster, names, used, cs);
      NoPartsElsewhere(s, SharesOf(s, hostCluster, names, used), cs, c);
    }
  }

  lemma {:induction false} NoPartsElsewhere(s: Store, shares: seq<Share>, cs: seq<string>, c: string)
    requires c !in cs && forall i :: 0 <= i < |shares| ==> shares[i].cluster in cs
    ensures PartsFor(s, shares, c) == []
  {
    if shares != [] {
      NoPartsElsewhere(s, shares[..|shares|-1], cs, c);
    }
  }

  lemma FileMountsCovered(targets: Targets, k: Kept)
    ensures Covers(AllFileTargets(targets, k), FileMounts(targets, k), AllFileTargets(targets, k))
  {
    var hostT, names := HostTargets(targets, k.src, k.hosts), AllFileTargets(targets, k);
    FileTargetsMeaning(targets, hostT, k, |k.vms|);
    HostFileTargetsMeaning(hostT, k.hosts);
    forall m | m in FileMounts(targets, k)
      ensures FileMounts(targets, k)[m] in names
    {
      HostTargetsMeaning(targets, k.src, k.hosts, HostKey(m));
      var i :| 0 <= i < |k.hosts| && HostKey(k.hosts[i].name) == HostKey(m);
      assert hostT[HostKey(m)] in HostFileTargets(hostT, k.hosts);
    }
  }

  /** A datastore reaches only targets that hold hosts or VMs of its own file. */
  lemma DatastoreStaysWithFile(targets: Targets, k: Kept, t: string)
    requires HostsMapped(targets, k) && FileStores(targets, k, t) != []
    ensures FileReaches(targets, k, t)
  {
    var hostT, names := HostTargets(targets, k.src, k.hosts), AllFileTargets(targets, k);
    FileMountsCovered(targets, k);
    if t !in names {
      StoresForReach(k.stores, FileMounts(targets, k), names, UsedMap(targets, k, |k.vms|), names, t);
    }
    FileTargetsMeaning(targets, hostT, k, |k.vms|);
    HostFileTargetsMeaning(hostT, k.hosts);
    if t in HostFileTargets(hostT, k.hosts) {
      var i :| 0 <= i < |k.hosts|
               && t == (if HostKey(k.hosts[i].name) in hostT then hostT[HostKey(k.hosts[i].name)] else "");
      KeysOfMeaning(k.hosts, HostKey(k.hosts[i].name));
      HostTargetsMeaning(targets, k.src, k.hosts, HostKey(k.hosts[i].name));
    }
  }

  lemma {:induction false} UsedNonNegative(targets: Targets, k: Kept, n: nat, t: string)
    requires n <= |k.vms| && forall i :: 0 <= i < |k.vms| ==> k.vms[i].vm.usedGb >= 0.0
    ensures UsedInto(targets, k, n, t) >= 0.0
  {
    if n > 0 {
      UsedNonNegative(targets, k, n - 1, t);
    }
  }

  /** A file's kept datastores are conserved over its targets within half a
      hundredth per part, as soon as it keeps a host or a VM; a file that keeps
      neither loses them all. */
  lemma FileCapacityConserved(targets: Targets, k: Kept, field: Field)
    requires forall i :: 0 <= i < |k.vms| ==> k.vms[i].vm.usedGb >= 0.0
    ensures k.hosts == [] && k.vms == [] <==> AllFileTargets(targets, k) == []
    ensures k.hosts == [] && k.vms == [] ==> forall t :: FileStores(targets, k, t) == []
    ensures (k.hosts != [] || k.vms != []) ==>
      var names, mounts, used := AllFileTargets(targets, k), FileMounts(targets, k), UsedMap(targets, k, |k.vms|);
      Within(Given(names, k.stores, mounts, names, used, field), Sum(k.stores, field),
             0.005 * PartCount(names, k.stores, mounts, names, used) as real)
  {
    var hostT, names := HostTargets(targets, k.src, k.hosts), AllFileTargets(targets, k);
    FileTargetsMeaning(targets, hostT, k, |k.vms|);
    HostFileTargetsMeaning(hostT, k.hosts);
    AnyFileTarget(targets, k);
    if k.hosts != [] || k.vms != [] {
      FileMountsCovered(targets, k);
      forall i | 0 <= i < |names| ensures UsedBy(names[i], UsedMap(targets, k, |k.vms|)) >= 0.0 {
        UsedNonNegative(targets, k, |k.vms|, names[i]);
      }
      CapacityConserved(names, k.stores, FileMounts(targets, k), names, UsedMap(targets, k, |k.vms|), field);
    }
  }

  lemma AnyFileTarget(targets: Targets, k: Kept)
    ensures k.hosts == [] && k.vms == [] <==> AllFileTargets(targets, k) == []
  {
    var hostT := HostTargets(targets, k.src, k.hosts);
    FileTargetsMeaning(targets, hostT, k, |k.vms|);
    HostFileTargetsMeaning(hostT, k.hosts);
    if k.hosts != [] {
      var t := if HostKey(k.hosts[0].name) in hostT then hostT[HostKey(k.hosts[0].name)] else "";
      assert t in HostFileTargets(hostT, k.hosts);
      assert t in AllFileTargets(targets, k);
    } else if k.vms != [] {
      assert Tgt(targets, k.src, k.vms[0].vm.cluster) in AllFileTargets(targets, k);
    }
  }
}
