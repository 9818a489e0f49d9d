/** Where the merge reports the records of a group, as the user's mapping asks. */
module EstateMapping {
  import opened Text
  import opened Sequences
  import opened EstateModel
  import opened Overlaps
  import opened EstateKeep
  import opened EstateRecut
  import opened EstateTargets
  import opened EstateMerge

  // ── the order of the groups ───────────────────────────────────────────────

  function HostGroups(src: nat, hosts: seq<Host>): seq<GroupKey> {
    seq(|hosts|, i requires 0 <= i < |hosts| => GroupOf(src, hosts[i].cluster))
  }

  function VmGroups(src: nat, vms: seq<Vm>): seq<GroupKey> {
    seq(|vms|, i requires 0 <= i < |vms| => GroupOf(src, vms[i].cluster))
  }

  /** The group of every record, file by file, hosts before VMs. */
  function RecordGroups(live: seq<File>): seq<GroupKey> {
    if live == [] then []
    else
      var f := live[|live|-1];
      RecordGroups(live[..|live|-1]) + HostGroups(f.id, f.hosts) + VmGroups(f.id, f.vms)
  }

  lemma HostGroupsPush(src: nat, hosts: seq<Host>)
    requires hosts != []
    ensures HostGroups(src, hosts) == HostGroups(src, hosts[..|hosts|-1]) + [GroupOf(src, hosts[|hosts|-1].cluster)]
  {
  }

  lemma {:induction false} HostGroupsOnce(seen: seq<GroupKey>, src: nat, hosts: seq<Host>)
    ensures AddHostGroups(Once(seen), src, hosts) == Once(seen + HostGroups(src, hosts))
  {
    if hosts == [] {
      assert seen + HostGroups(src, hosts) == seen;
    } else {
      var front, g := hosts[..|hosts|-1], GroupOf(src, hosts[|hosts|-1].cluster);
      HostGroupsOnce(seen, src, front);
      HostGroupsPush(src, hosts);
      var before := HostGroups(src, front);
      OncePush(seen + before, g);
      assert seen + (before + [g]) == seen + before + [g];
    }
  }

  lemma VmGroupsPush(src: nat, vms: seq<Vm>)
    requires vms != []
    ensures VmGroups(src, vms) == VmGroups(src, vms[..|vms|-1]) + [GroupOf(src, vms[|vms|-1].cluster)]
  {
  }

  lemma {:induction false} VmGroupsOnce(seen: seq<GroupKey>, src: nat, vms: seq<Vm>)
    ensures AddVmGroups(Once(seen), src, vms) == Once(seen + VmGroups(src, vms))
  {
    if vms == [] {
      assert seen + VmGroups(src, vms) == seen;
    } else {
      var front, g := vms[..|vms|-1], GroupOf(src, vms[|vms|-1].cluster);
      VmGroupsOnce(seen, src, front);
      VmGroupsPush(src, vms);
      var before := VmGroups(src, front);
      OncePush(seen + before, g);
      assert seen + (before + [g]) == seen + before + [g];
    }
  }

  lemma {:induction false} GroupsOnce(live: seq<File>)
    ensures Groups(live) == Once(RecordGroups(live))
  {
    if live != [] {
      var front, f := live[..|live|-1], live[|live|-1];
      GroupsOnce(front);
      HostGroupsOnce(RecordGroups(front), f.id, f.hosts);
      VmGroupsOnce(RecordGroups(front) + HostGroups(f.id, f.hosts), f.id, f.vms);
    }
  }

  /** The groups are those of the records, each once, in the order in which the files' hosts and then VMs first name
      them. */
  lemma GroupsInOrder(live: seq<File>)
    ensures InOrder(Groups(live), RecordGroups(live))
  {
    GroupsOnce(live);
    OnceInOrder(RecordGroups(live));
  }

  // ── every group is one of a given file ────────────────────────────────────

  lemma {:induction false} GroupsGiven(live: seq<File>)
    ensures forall g :: g in Groups(live) ==> FileGiven(live, g)
  {
    if live != [] {
      var front, last := live[..|live|-1], live[|live|-1];
      GroupsGiven(front);
      assert live == front + [last];
      var hosts := AddHostGroups(Groups(front), last.id, last.hosts);
      HostGroupsGiven(Groups(front), last.id, last.hosts);
      VmGroupsGiven(hosts, last.id, last.vms);
      forall g | g in Groups(live) ensures FileGiven(live, g) {
        if g.InFile? && g.src == last.id {
          assert last in live;
        }
      }
    }
  }

  lemma {:induction false} HostGroupsGiven(keys: seq<GroupKey>, src: nat, hosts: seq<Host>)
    ensures forall g :: g in AddHostGroups(keys, src, hosts) ==> g in keys || g == Standalone || g.src == src
  {
    if hosts != [] {
      HostGroupsGiven(keys, src, hosts[..|hosts|-1]);
    }
  }

  lemma {:induction false} VmGroupsGiven(keys: seq<GroupKey>, src: nat, vms: seq<Vm>)
    ensures forall g :: g in AddVmGroups(keys, src, vms) ==> g in keys || g == Standalone || g.src == src
  {
    if vms != [] {
      VmGroupsGiven(keys, src, vms[..|vms|-1]);
    }
  }

  /** Every group's target is what the mapping asks, and the default where it asks nothing. */
  lemma MappingHonoured(live: seq<File>, mapping: Mapping, targets: Targets, names: seq<string>)
    requires MappedBy(live, mapping, targets, names)
    ensures forall g :: g in targets ==> Honours(live, Groups(live), mapping, g, targets[g])
  {
    GroupsGiven(live);
    forall g | g in targets ensures Honours(live, Groups(live), mapping, g, targets[g]) {
      TargetHonours(live, Groups(live), mapping, g);
    }
  }

  // ── the report, by name ───────────────────────────────────────────────────

  lemma {:induction false} FinishedHas(targets: Targets, kept: seq<Kept>, names: seq<string>, i: nat, m: MergedTarget)
    requires i < |names| && m == TargetAt(targets, kept, names[i]) && Reported(m)
    ensures m in Finished(targets, kept, names)
  {
    FinishedPush(targets, kept, names);
    if i < |names| - 1 {
      FinishedHas(targets, kept, names[..|names|-1], i, m);
    }
  }

  lemma FinishedPush(targets: Targets, kept: seq<Kept>, names: seq<string>)
    requires names != []
    ensures var m := TargetAt(targets, kept, names[|names|-1]);
            && (Reported(m) ==> m in Finished(targets, kept, names))
            && (forall x :: x in Finished(targets, kept, names[..|names|-1]) ==> x in Finished(targets, kept, names))
            && (forall x :: x in Finished(targets, kept, names) ==>
                  x in Finished(targets, kept, names[..|names|-1]) || (x == m && Reported(m)))
  {
  }

  lemma {:induction false} FinishedNames(targets: Targets, kept: seq<Kept>, names: seq<string>, m: MergedTarget)
    requires m in Finished(targets, kept, names)
    ensures m.name in names && Reported(m) && m == TargetAt(targets, kept, m.name)
  {
    var front, last := names[..|names|-1], names[|names|-1];
    assert names == front + [last];
    FinishedPush(targets, kept, names);
    if m in Finished(targets, kept, front) {
      FinishedNames(targets, kept, front, m);
    }
  }

  // ── the order of the report ───────────────────────────────────────────────

  function GroupTargets(targets: Targets, groups: seq<GroupKey>): seq<string>
    requires forall i :: 0 <= i < |groups| ==> groups[i] in targets
  {
    seq(|groups|, i requires 0 <= i < |groups| => targets[groups[i]])
  }

  lemma GroupTargetsPush(targets: Targets, groups: seq<GroupKey>)
    requires groups != [] && forall i :: 0 <= i < |groups| ==> groups[i] in targets
    ensures GroupTargets(targets, groups)
            == GroupTargets(targets, groups[..|groups|-1]) + [targets[groups[|groups|-1]]]
  {
  }

  lemma TargetNamesPush(live: seq<File>, all: seq<GroupKey>, mapping: Mapping, groups: seq<GroupKey>, t: string)
    requires groups != [] && TargetOf(live, all, mapping, groups[|groups|-1]) == t
    ensures var names := TargetNames(live, all, mapping, groups[..|groups|-1]);
            TargetNames(live, all, mapping, groups) == if t in names then names else names + [t]
  {
  }

  lemma {:induction false} TargetNamesOnce(live: seq<File>, all: seq<GroupKey>, mapping: Mapping, targets: Targets,
                                           groups: seq<GroupKey>)
    requires forall i :: 0 <= i < |groups| ==> groups[i] in targets
    requires forall g :: g in targets ==> targets[g] == TargetOf(live, all, mapping, g)
    ensures TargetNames(live, all, mapping, groups) == Once(GroupTargets(targets, groups))
  {
    if groups != [] {
      var front, last := groups[..|groups|-1], groups[|groups|-1];
      TargetNamesOnce(live, all, mapping, targets, front);
      TargetNamesPush(live, all, mapping, groups, targets[last]);
      GroupTargetsPush(targets, groups);
      OncePush(GroupTargets(targets, front), targets[last]);
    }
  }

  lemma FinishedGrows(targets: Targets, kept: seq<Kept>, names: seq<string>)
    requires names != []
    ensures var m := TargetAt(targets, kept, names[|names|-1]);
            Finished(targets, kept, names)
            == Finished(targets, kept, names[..|names|-1]) + (if Reported(m) then [m] else [])
  {
  }

  /** A reported target's place among the names. */
  lemma {:induction false} FinishedPlace(targets: Targets, kept: seq<Kept>, names: seq<string>, i: nat) returns (a: nat)
    requires i < |Finished(targets, kept, names)|
    ensures a < |names| && names[a] == Finished(targets, kept, names)[i].name
    ensures forall j :: 0 <= j < i ==> Finished(targets, kept, names)[j].name in names[..a]
  {
    var front := names[..|names|-1];
    var had := Finished(targets, kept, front);
    FinishedGrows(targets, kept, names);
    if i < |had| {
      a := FinishedPlace(targets, kept, front, i);
      assert names[..a] == front[..a];
    } else {
      a := |front|;
      forall j | 0 <= j < i ensures had[j].name in front {
        FinishedNames(targets, kept, front, had[j]);
      }
    }
  }

  /** The targets are reported in the order in which the groups first map to them, and none twice. */
  lemma ReportInOrder(live: seq<File>, mapping: Mapping, targets: Targets, names: seq<string>, kept: seq<Kept>)
    requires MappedBy(live, mapping, targets, names)
    ensures var out := Finished(targets, kept, names);
            forall i, j :: 0 <= i < j < |out| ==>
              out[i].name != out[j].name && Before(GroupTargets(targets, Groups(live)), out[i].name, out[j].name)
  {
    var out, list := Finished(targets, kept, names), GroupTargets(targets, Groups(live));
    TargetNamesOnce(live, Groups(live), mapping, targets, Groups(live));
    OnceInOrder(list);
    forall i, j | 0 <= i < j < |out|
      ensures out[i].name != out[j].name && Before(list, out[i].name, out[j].name)
    {
      var b := FinishedPlace(targets, kept, names, j);
      assert out[i].name in names[..b];
      var a :| 0 <= a < b && names[a] == out[i].name;
    }
  }

  ghost predicate HostReported(out: seq<MergedTarget>, p: Placed<Host>) {
    exists m :: m in out && m.name == p.target && p in m.hosts
  }

  ghost predicate VmReported(out: seq<MergedTarget>, p: Placed<Copy>) {
    exists m :: m in out && m.name == p.target && p in m.vms
  }

  ghost predicate RowReported(out: seq<MergedTarget>, p: Placed<HostRow>) {
    exists m :: m in out && m.name == p.target && p in m.perfs
  }

  ghost predicate NicReported(out: seq<MergedTarget>, p: Placed<HostRow>) {
    exists m :: m in out && m.name == p.target && p in m.nics
  }

  lemma NameUsed(targets: Targets, kept: seq<Kept>, names: seq<string>, i: nat, t: string)
    requires i < |kept| && FileReaches(targets, kept[i], t) && t in names && t != SKIP
    ensures TargetAt(targets, kept, t) in Finished(targets, kept, names)
  {
    ReachedIsHeld(targets, kept, i, t);
    var n :| 0 <= n < |names| && names[n] == t;
    FinishedHas(targets, kept, names, n, TargetAt(targets, kept, t));
  }

  lemma HostIsReported(targets: Targets, kept: seq<Kept>, names: seq<string>, i: nat, j: nat)
    requires i < |kept| && j < |kept[i].hosts|
    requires var t := Tgt(targets, kept[i].src, kept[i].hosts[j].cluster); t in names && t != SKIP
    ensures HostReported(Finished(targets, kept, names), PlacedHost(targets, kept[i].src, kept[i].hosts[j]))
  {
    var p := PlacedHost(targets, kept[i].src, kept[i].hosts[j]);
    NameUsed(targets, kept, names, i, p.target);
    HostInAll(targets, kept, i, j);
    FilterMeaning(AllHosts(targets, kept), TargetIs(p.target));
    assert p in TargetAt(targets, kept, p.target).hosts;
  }

  /** A kept host is reported in the target its group was given, under that cluster name, unless the user skips the
      group. */
  lemma HostReachesTarget(live: seq<File>, mapping: Mapping, d: Decisions, targets: Targets, names: seq<string>,
                          i: nat, j: nat)
    requires MappedBy(live, mapping, targets, names) && i < |live| && j < |KeptOf(d, live[i]).hosts|
    ensures var h := KeptOf(d, live[i]).hosts[j]; var out := Finished(targets, KeptAll(d, live), names);
            exists t :: Honours(live, Groups(live), mapping, GroupOf(live[i].id, h.cluster), t)
                        && (t != "__skip__" ==> HostReported(out, Placed(t, live[i].id, h.(cluster := t))))
    ensures forall m :: m in Finished(targets, KeptAll(d, live), names) ==> m.name != "__skip__"
  {
    var h := KeptOf(d, live[i]).hosts[j];
    KeptHostsMapped(live, d, targets, i);
    var t := GivenTarget(live, mapping, targets, names, live[i].id, h.cluster);
    NoneSkipped(targets, KeptAll(d, live), names);
    if t != "__skip__" {
      HostIsReported(targets, KeptAll(d, live), names, i, j);
    }
  }

  /** The target of a kept record's cluster is what the mapping asks. */
  lemma GivenTarget(live: seq<File>, mapping: Mapping, targets: Targets, names: seq<string>, src: nat, cluster: string)
    returns (t: string)
    requires MappedBy(live, mapping, targets, names) && GroupOf(src, cluster) in targets
    ensures t == Tgt(targets, src, cluster) && t in names
    ensures Honours(live, Groups(live), mapping, GroupOf(src, cluster), t)
  {
    t := targets[GroupOf(src, cluster)];
    MappingHonoured(live, mapping, targets, names);
    TargetsNamed(live, mapping, targets, names);
  }

  lemma NoneSkipped(targets: Targets, kept: seq<Kept>, names: seq<string>)
    ensures forall m :: m in Finished(targets, kept, names) ==> m.name != "__skip__"
  {
    forall m | m in Finished(targets, kept, names) ensures m.name != "__skip__" {
      FinishedNames(targets, kept, names, m);
    }
  }

  /** So is a kept VM. */
  lemma VmReachesTarget(live: seq<File>, mapping: Mapping, d: Decisions, targets: Targets, names: seq<string>,
                        i: nat, j: nat)
    requires MappedBy(live, mapping, targets, names) && i < |live| && j < |KeptOf(d, live[i]).vms|
    ensures var c := KeptOf(d, live[i]).vms[j]; var out := Finished(targets, KeptAll(d, live), names);
            exists t :: Honours(live, Groups(live), mapping, GroupOf(live[i].id, c.vm.cluster), t)
                        && (t != "__skip__" ==>
                            VmReported(out, Placed(t, live[i].id, c.(vm := c.vm.(cluster := t)))))
  {
    var c := KeptOf(d, live[i]).vms[j];
    KeptVmsMapped(live, d, targets, i);
    var t := GivenTarget(live, mapping, targets, names, live[i].id, c.vm.cluster);
    if t != "__skip__" {
      VmIsReported(targets, KeptAll(d, live), names, i, j);
    }
  }

  lemma VmIsReported(targets: Targets, kept: seq<Kept>, names: seq<string>, i: nat, j: nat)
    requires i < |kept| && j < |kept[i].vms|
    requires var t := Tgt(targets, kept[i].src, kept[i].vms[j].vm.cluster); t in names && t != SKIP
    ensures VmReported(Finished(targets, kept, names), PlacedVm(targets, kept[i].src, kept[i].vms[j]))
  {
    var p := PlacedVm(targets, kept[i].src, kept[i].vms[j]);
    NameUsed(targets, kept, names, i, p.target);
    VmInAll(targets, kept, i, j);
    FilterMeaning(AllVms(targets, kept), TargetIs(p.target));
    assert p in TargetAt(targets, kept, p.target).vms;
  }

  // ── rows go where their host goes ─────────────────────────────────────────

  lemma {:induction false} RowsInAll(targets: Targets, kept: seq<Kept>, i: nat, p: Placed<HostRow>)
    requires i < |kept|
    ensures var hostT := HostTargets(targets, kept[i].src, kept[i].hosts);
            && (p in PlacedRows(hostT, kept[i].src, kept[i].perfs) ==> p in AllPerfs(targets, kept))
            && (p in PlacedRows(hostT, kept[i].src, kept[i].nics) ==> p in AllNics(targets, kept))
    decreases |kept|
  {
    RowsOfLast(targets, kept);
    if i < |kept| - 1 {
      RowsInAll(targets, kept[..|kept|-1], i, p);
    }
  }

  lemma RowsOfLast(targets: Targets, kept: seq<Kept>)
    requires kept != []
    ensures var front, k := kept[..|kept|-1], kept[|kept|-1]; var hostT := HostTargets(targets, k.src, k.hosts);
            && AllPerfs(targets, kept) == AllPerfs(targets, front) + PlacedRows(hostT, k.src, k.perfs)
            && AllNics(targets, kept) == AllNics(targets, front) + PlacedRows(hostT, k.src, k.nics)
  {
  }

  /** A kept performance or NIC row is reported, unchanged, in the target of the last kept host with its key. */
  lemma RowReachesTarget(live: seq<File>, mapping: Mapping, d: Decisions, targets: Targets, names: seq<string>,
                         i: nat, r: HostRow)
    requires MappedBy(live, mapping, targets, names) && i < |live|
    requires r in KeptOf(d, live[i]).perfs || r in KeptOf(d, live[i]).nics
    ensures var k := KeptOf(d, live[i]); var out := Finished(targets, KeptAll(d, live), names);
            exists j: nat :: LastOfKey(k.hosts, j, HostKey(r.host))
              && var g := GroupOf(k.src, k.hosts[j].cluster);
                 g in targets && (targets[g] != "__skip__" ==>
                   && (r in k.perfs ==> RowReported(out, Placed(targets[g], k.src, r)))
                   && (r in k.nics ==> NicReported(out, Placed(targets[g], k.src, r))))
  {
    var k := KeptOf(d, live[i]);
    KeptHostsMapped(live, d, targets, i);
    var j := RowHost(live, d, targets, i, r);
    var t := GivenTarget(live, mapping, targets, names, k.src, k.hosts[j].cluster);
    NotBlank(live, mapping, targets, names, GroupOf(k.src, k.hosts[j].cluster));
    if t != "__skip__" {
      RowIsReported(targets, KeptAll(d, live), names, i, j, r);
    }
  }

  lemma NotBlank(live: seq<File>, mapping: Mapping, targets: Targets, names: seq<string>, g: GroupKey)
    requires MappedBy(live, mapping, targets, names) && g in targets
    ensures targets[g] != ""
  {
    TargetsNamed(live, mapping, targets, names);
  }

  lemma RowIsReported(targets: Targets, kept: seq<Kept>, names: seq<string>, i: nat, j: nat, r: HostRow)
    requires i < |kept| && j < |kept[i].hosts|
    requires var t := Tgt(targets, kept[i].src, kept[i].hosts[j].cluster);
             && t in names && t != SKIP && t != ""
             && HostKey(r.host) in HostTargets(targets, kept[i].src, kept[i].hosts)
             && HostTargets(targets, kept[i].src, kept[i].hosts)[HostKey(r.host)] == t
    ensures var t := Tgt(targets, kept[i].src, kept[i].hosts[j].cluster); var out := Finished(targets, kept, names);
            && (r in kept[i].perfs ==> RowReported(out, Placed(t, kept[i].src, r)))
            && (r in kept[i].nics ==> NicReported(out, Placed(t, kept[i].src, r)))
  {
    var k := kept[i];
    var t, hostT := Tgt(targets, k.src, k.hosts[j].cluster), HostTargets(targets, k.src, k.hosts);
    RowPlaced(hostT, k.src, k.perfs, r);
    RowPlaced(hostT, k.src, k.nics, r);
    RowsInAll(targets, kept, i, Placed(t, k.src, r));
    NameUsed(targets, kept, names, i, t);
    FilterMeaning(AllPerfs(targets, kept), TargetIs(t));
    FilterMeaning(AllNics(targets, kept), TargetIs(t));
    var p, m := Placed(t, k.src, r), TargetAt(targets, kept, t);
    assert r in k.perfs ==> p in m.perfs;
    assert r in k.nics ==> p in m.nics;
  }

  lemma RowHost(live: seq<File>, d: Decisions, targets: Targets, i: nat, r: HostRow) returns (j: nat)
    requires i < |live| && (r in KeptOf(d, live[i]).perfs || r in KeptOf(d, live[i]).nics)
    requires HostsMapped(targets, KeptOf(d, live[i]))
    ensures var k := KeptOf(d, live[i]); var hostT := HostTargets(targets, k.src, k.hosts);
            && LastOfKey(k.hosts, j, HostKey(r.host)) && GroupOf(k.src, k.hosts[j].cluster) in targets
            && HostKey(r.host) in hostT && hostT[HostKey(r.host)] == targets[GroupOf(k.src, k.hosts[j].cluster)]
  {
    var k := KeptOf(d, live[i]);
    var key := HostKey(r.host);
    FilterMeaning(live[i].perfs, RowPicker(KeysOf(k.hosts)));
    FilterMeaning(live[i].nics, RowPicker(KeysOf(k.hosts)));
    HostTargetsMeaning(targets, k.src, k.hosts, key);
    var hostT := HostTargets(targets, k.src, k.hosts);
    j :| LastOfKey(k.hosts, j, key) && hostT[key] == Tgt(targets, k.src, k.hosts[j].cluster);
  }

  lemma {:induction false} RowPlaced(hostT: map<string, string>, src: nat, rows: seq<HostRow>, r: HostRow)
    requires HostKey(r.host) in hostT && hostT[HostKey(r.host)] != ""
    ensures r in rows ==> Placed(hostT[HostKey(r.host)], src, r) in PlacedRows(hostT, src, rows)
  {
    if rows != [] {
      var front, last := rows[..|rows|-1], rows[|rows|-1];
      RowPlaced(hostT, src, front, r);
      assert rows == front + [last];
    }
  }
}
