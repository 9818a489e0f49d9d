/** The re-cut proper: every kept record to its target, datastores by share. */
module EstateTargets {
  import opened Text
  import opened Sequences
  import opened EstateModel
  import opened EstateKeep
  import opened EstateRecut
  import opened Datastores

  /** A record, its target and its source file. */
  datatype Placed<T> = Placed(target: string, src: nat, rec: T)

  function Tgt(targets: Targets, src: nat, cluster: string): string {
    var g := GroupOf(src, cluster);
    if g in targets then targets[g] else ""
  }

  function PlacedHosts(targets: Targets, src: nat, hosts: seq<Host>): seq<Placed<Host>> {
    if hosts == [] then []
    else
      var h := hosts[|hosts|-1];
      var t := Tgt(targets, src, h.cluster);
      PlacedHosts(targets, src, hosts[..|hosts|-1]) + [Placed(t, src, h.(cluster := t))]
  }

  function PlacedVms(targets: Targets, src: nat, vms: seq<Copy>): seq<Placed<Copy>> {
    if vms == [] then []
    else
      var c := vms[|vms|-1];
      var t := Tgt(targets, src, c.vm.cluster);
      PlacedVms(targets, src, vms[..|vms|-1]) + [Placed(t, src, c.(vm := c.vm.(cluster := t)))]
  }

  /** Host key to target; a later host of the same key overwrites. */
  function HostTargets(targets: Targets, src: nat, hosts: seq<Host>): map<string, string> {
    if hosts == [] then map[]
    else
      var h := hosts[|hosts|-1];
      HostTargets(targets, src, hosts[..|hosts|-1])[HostKey(h.name) := Tgt(targets, src, h.cluster)]
  }

  function PlacedRows(hostT: map<string, string>, src: nat, rows: seq<HostRow>): seq<Placed<HostRow>> {
    if rows == [] then []
    else PlacedRows(hostT, src, rows[..|rows|-1]) + PlacedRow(hostT, src, rows[|rows|-1])
  }

  function PlacedRow(hostT: map<string, string>, src: nat, r: HostRow): seq<Placed<HostRow>> {
    if HostKey(r.host) in hostT && hostT[HostKey(r.host)] != "" then [Placed(hostT[HostKey(r.host)], src, r)] else []
  }

  function AddName(names: seq<string>, t: string): seq<string> {
    if t in names then names else names + [t]
  }

  /** The targets of a file's hosts and VMs, each once. */
  function HostFileTargets(hostT: map<string, string>, hosts: seq<Host>): seq<string> {
    if hosts == [] then []
    else
      var k := HostKey(hosts[|hosts|-1].name);
      AddName(HostFileTargets(hostT, hosts[..|hosts|-1]), if k in hostT then hostT[k] else "")
  }

  function FileTargets(targets: Targets, hostT: map<string, string>, k: Kept, n: nat): seq<string>
    requires n <= |k.vms|
  {
    if n == 0 then HostFileTargets(hostT, k.hosts)
    else AddName(FileTargets(targets, hostT, k, n - 1), Tgt(targets, k.src, k.vms[n-1].vm.cluster))
  }

  function AllFileTargets(targets: Targets, k: Kept): seq<string> {
    FileTargets(targets, HostTargets(targets, k.src, k.hosts), k, |k.vms|)
  }

  /** Active VMs' used storage by target. */
  function UsedInto(targets: Targets, k: Kept, n: nat, t: string): real
    requires n <= |k.vms|
  {
    if n == 0 then 0.0
    else
      var vm := k.vms[n-1].vm;
      UsedInto(targets, k, n - 1, t)
      + (if Active(vm) && Tgt(targets, k.src, vm.cluster) == t then vm.usedGb else 0.0)
  }

  function UsedMap(targets: Targets, k: Kept, n: nat): map<string, real>
    requires n <= |k.vms|
  {
    UsedOver(AllFileTargets(targets, k), targets, k, n)
  }

  function UsedOver(names: seq<string>, targets: Targets, k: Kept, n: nat): map<string, real>
    requires n <= |k.vms|
  {
    map t | t in names :: UsedInto(targets, k, n, t)
  }

  function MountSet(mounts: seq<string>): set<string> {
    set m | m in mounts
  }

  function StoreMounts(stores: seq<Store>): set<string> {
    if stores == [] then {}
    else StoreMounts(stores[..|stores|-1]) + MountSet(stores[|stores|-1].mounts)
  }

  function HostNames(hosts: seq<Host>): set<string> {
    if hosts == [] then {} else HostNames(hosts[..|hosts|-1]) + {hosts[|hosts|-1].name}
  }

  /** Mount names, as the file spells them, to targets. */
  function MountMap(hostT: map<string, string>, names: set<string>): map<string, string> {
    map m | m in names && HostKey(m) in hostT :: hostT[HostKey(m)]
  }

  function FileMounts(targets: Targets, k: Kept): map<string, string> {
    MountMap(HostTargets(targets, k.src, k.hosts), HostNames(k.hosts) + StoreMounts(k.stores))
  }

  /** What one file's datastores give target t. */
  function FileStores(targets: Targets, k: Kept, t: string): seq<Store> {
    var names := AllFileTargets(targets, k);
    if k.stores == [] || names == [] then []
    else StoresFor(k.stores, FileMounts(targets, k), names, UsedMap(targets, k, |k.vms|), t)
  }

  // ── the whole estate ──────────────────────────────────────────────────────

  function AllHosts(targets: Targets, kept: seq<Kept>): seq<Placed<Host>> {
    if kept == [] then []
    else
      var k := kept[|kept|-1];
      AllHosts(targets, kept[..|kept|-1]) + PlacedHosts(targets, k.src, k.hosts)
  }

  function AllVms(targets: Targets, kept: seq<Kept>): seq<Placed<Copy>> {
    if kept == [] then []
    else
      var k := kept[|kept|-1];
      AllVms(targets, kept[..|kept|-1]) + PlacedVms(targets, k.src, k.vms)
  }

  function AllPerfs(targets: Targets, kept: seq<Kept>): seq<Placed<HostRow>> {
    if kept == [] then []
    else
      var k := kept[|kept|-1];
      AllPerfs(targets, kept[..|kept|-1]) + PlacedRows(HostTargets(targets, k.src, k.hosts), k.src, k.perfs)
  }

  function AllNics(targets: Targets, kept: seq<Kept>): seq<Placed<HostRow>> {
    if kept == [] then []
    else
      var k := kept[|kept|-1];
      AllNics(targets, kept[..|kept|-1]) + PlacedRows(HostTargets(targets, k.src, k.hosts), k.src, k.nics)
  }

  function Tagged(t: string, src: nat, stores: seq<Store>): seq<Placed<Store>> {
    seq(|stores|, i requires 0 <= i < |stores| => Placed(t, src, stores[i]))
  }

  function StoresInto(targets: Targets, kept: seq<Kept>, t: string): seq<Placed<Store>> {
    if kept == [] then []
    else
      var k := kept[|kept|-1];
      StoresInto(targets, kept[..|kept|-1], t) + Tagged(t, k.src, FileStores(targets, k, t))
  }

  function TargetIs<T>(t: string): Placed<T> -> bool {
    (p: Placed<T>) => p.target == t
  }

  function Into<T>(all: seq<Placed<T>>, t: string): seq<Placed<T>> {
    Filter(all, TargetIs(t))
  }

  /** The per-target lists being filled. */
  type Lists<T> = map<string, seq<Placed<T>>>

  function ListAt<T>(lists: Lists<T>, t: string): seq<Placed<T>> {
    if t in lists then lists[t] else []
  }

  function Push<T>(lists: Lists<T>, p: Placed<T>): Lists<T> {
    lists[p.target := ListAt(lists, p.target) + [p]]
  }

  lemma IntoPush<T>(all: seq<Placed<T>>, p: Placed<T>, t: string)
    ensures Into(all + [p], t) == Into(all, t) + (if p.target == t then [p] else [])
  {
    assert (all + [p])[..|all|] == all;
  }

  /** Each list holds, in order, the records placed in its target. */
  ghost predicate Sorted<T>(lists: Lists<T>, all: seq<Placed<T>>) {
    forall t :: ListAt(lists, t) == Into(all, t)
  }

  lemma SortedPush<T>(lists: Lists<T>, all: seq<Placed<T>>, p: Placed<T>)
    requires Sorted(lists, all)
    ensures Sorted(Push(lists, p), all + [p])
  {
    forall t ensures ListAt(Push(lists, p), t) == Into(all + [p], t) {
      IntoPush(all, p, t);
      assert ListAt(lists, t) == Into(all, t);
    }
  }

  // ── the loops ─────────────────────────────────────────────────────────────

  predicate HostsMapped(targets: Targets, k: Kept) {
    forall i :: 0 <= i < |k.hosts| ==> GroupOf(k.src, k.hosts[i].cluster) in targets
  }

  predicate VmsMapped(targets: Targets, k: Kept) {
    forall i :: 0 <= i < |k.vms| ==> GroupOf(k.src, k.vms[i].vm.cluster) in targets
  }

  method PlaceHost(lists: Lists<Host>, ghost all: seq<Placed<Host>>, target: string, src: nat, h: Host)
    returns (after: Lists<Host>)
    requires Sorted(lists, all)
    ensures Sorted(after, all + [Placed(target, src, h.(cluster := target))])
  {
    var p := Placed(target, src, h.(cluster := target));
    SortedPush(lists, all, p);
    after := Push(lists, p);
  }

  lemma HostsStep(all: seq<Placed<Host>>, targets: Targets, k: Kept, i: nat)
    requires i < |k.hosts|
    ensures var h := k.hosts[i]; var t := Tgt(targets, k.src, h.cluster);
            all + PlacedHosts(targets, k.src, k.hosts[..i+1])
            == all + PlacedHosts(targets, k.src, k.hosts[..i]) + [Placed(t, k.src, h.(cluster := t))]
            && HostTargets(targets, k.src, k.hosts[..i+1]) == HostTargets(targets, k.src, k.hosts[..i])[HostKey(h.name) := t]
  {
    assert k.hosts[..i+1][..i] == k.hosts[..i];
  }

  method PlaceHosts(lists0: Lists<Host>, ghost all: seq<Placed<Host>>, targets: Targets, k: Kept)
    returns (lists: Lists<Host>, hostT: map<string, string>)
    requires HostsMapped(targets, k) && Sorted(lists0, all)
    ensures hostT == HostTargets(targets, k.src, k.hosts)
    ensures Sorted(lists, all + PlacedHosts(targets, k.src, k.hosts))
  {
    lists, hostT := lists0, map[];
    assert all + [] == all;
    for i := 0 to |k.hosts|
      invariant hostT == HostTargets(targets, k.src, k.hosts[..i])
      invariant Sorted(lists, all + PlacedHosts(targets, k.src, k.hosts[..i]))
    {
      var h := k.hosts[i];
      var t := targets[GroupOf(k.src, h.cluster)];
      hostT := hostT[HostKey(h.name) := t];
      lists := PlaceHost(lists, all + PlacedHosts(targets, k.src, k.hosts[..i]), t, k.src, h);
      HostsStep(all, targets, k, i);
    }
    assert k.hosts[..|k.hosts|] == k.hosts;
  }

  method PlaceVm(lists: Lists<Copy>, ghost all: seq<Placed<Copy>>, target: string, src: nat, c: Copy)
    returns (after: Lists<Copy>)
    requires Sorted(lists, all)
    ensures Sorted(after, all + [Placed(target, src, c.(vm := c.vm.(cluster := target)))])
  {
    var p := Placed(target, src, c.(vm := c.vm.(cluster := target)));
    SortedPush(lists, all, p);
    after := Push(lists, p);
  }

  lemma VmsStep(all: seq<Placed<Copy>>, targets: Targets, k: Kept, i: nat)
    requires i < |k.vms|
    ensures var c := k.vms[i]; var t := Tgt(targets, k.src, c.vm.cluster);
            all + PlacedVms(targets, k.src, k.vms[..i+1])
            == all + PlacedVms(targets, k.src, k.vms[..i]) + [Placed(t, k.src, c.(vm := c.vm.(cluster := t)))]
  {
    assert k.vms[..i+1][..i] == k.vms[..i];
  }

  method PlaceVms(lists0: Lists<Copy>, ghost all: seq<Placed<Copy>>, targets: Targets, k: Kept)
    returns (lists: Lists<Copy>)
    requires VmsMapped(targets, k) && Sorted(lists0, all)
    ensures Sorted(lists, all + PlacedVms(targets, k.src, k.vms))
  {
    lists := lists0;
    assert all + [] == all;
    for i := 0 to |k.vms|
      invariant Sorted(lists, all + PlacedVms(targets, k.src, k.vms[..i]))
    {
      var t := targets[GroupOf(k.src, k.vms[i].vm.cluster)];
      lists := PlaceVm(lists, all + PlacedVms(targets, k.src, k.vms[..i]), t, k.src, k.vms[i]);
      VmsStep(all, targets, k, i);
    }
    assert k.vms[..|k.vms|] == k.vms;
  }

  method PlaceRow(lists: Lists<HostRow>, ghost all: seq<Placed<HostRow>>, hostT: map<string, string>, src: nat,
                  r: HostRow)
    returns (after: Lists<HostRow>)
    requires Sorted(lists, all)
    ensures Sorted(after, all + PlacedRow(hostT, src, r))
  {
    after := lists;
    var k := HostKey(r.host);
    if k in hostT && hostT[k] != "" {
      var p := Placed(hostT[k], src, r);
      SortedPush(lists, all, p);
      after := Push(lists, p);
    } else {
      assert all + [] == all;
    }
  }

  lemma RowsStep(all: seq<Placed<HostRow>>, hostT: map<string, string>, src: nat, rows: seq<HostRow>, i: nat)
    requires i < |rows|
    ensures all + PlacedRows(hostT, src, rows[..i+1])
            == all + PlacedRows(hostT, src, rows[..i]) + PlacedRow(hostT, src, rows[i])
  {
    assert rows[..i+1][..i] == rows[..i];
  }

  method PlaceRows(lists0: Lists<HostRow>, ghost all: seq<Placed<HostRow>>, hostT: map<string, string>,
                   src: nat, rows: seq<HostRow>) returns (lists: Lists<HostRow>)
    requires Sorted(lists0, all)
    ensures Sorted(lists, all + PlacedRows(hostT, src, rows))
  {
    lists := lists0;
    assert all + [] == all;
    for i := 0 to |rows|
      invariant Sorted(lists, all + PlacedRows(hostT, src, rows[..i]))
    {
      lists := PlaceRow(lists, all + PlacedRows(hostT, src, rows[..i]), hostT, src, rows[i]);
      RowsStep(all, hostT, src, rows, i);
    }
    assert rows[..|rows|] == rows;
  }

  method CollectHostTargets(hosts: seq<Host>, hostT: map<string, string>) returns (names: seq<string>)
    ensures names == HostFileTargets(hostT, hosts)
  {
    names := [];
    for i := 0 to |hosts|
      invariant names == HostFileTargets(hostT, hosts[..i])
    {
      assert hosts[..i+1][..i] == hosts[..i];
      var key := HostKey(hosts[i].name);
      names := AddName(names, if key in hostT then hostT[key] else "");
    }
    assert hosts[..|hosts|] == hosts;
  }

  method CollectFileTargets(targets: Targets, k: Kept, hostT: map<string, string>) returns (names: seq<string>)
    requires hostT == HostTargets(targets, k.src, k.hosts) && VmsMapped(targets, k)
    ensures names == AllFileTargets(targets, k)
  {
    names := CollectHostTargets(k.hosts, hostT);
    for i := 0 to |k.vms|
      invariant names == FileTargets(targets, hostT, k, i)
    {
      names := AddName(names, targets[GroupOf(k.src, k.vms[i].vm.cluster)]);
    }
  }

  /** Adds up, target by target, what the running VMs occupy. */
  method SumUsed(targets: Targets, k: Kept, names: seq<string>) returns (used: map<string, real>)
    requires VmsMapped(targets, k)
    requires forall i :: 0 <= i < |k.vms| ==> Tgt(targets, k.src, k.vms[i].vm.cluster) in names
    ensures used == UsedOver(names, targets, k, |k.vms|)
  {
    used := map t | t in names :: 0.0;
    for i := 0 to |k.vms|
      invariant used == UsedOver(names, targets, k, i)
    {
      var vm := k.vms[i].vm;
      UsedStep(names, targets, k, i);
      if Active(vm) {
        var t := targets[GroupOf(k.src, vm.cluster)];
        used := used[t := used[t] + vm.usedGb];
      }
    }
  }

  lemma UsedStep(names: seq<string>, targets: Targets, k: Kept, i: nat)
    requires i < |k.vms|
    ensures var vm := k.vms[i].vm; var t := Tgt(targets, k.src, vm.cluster);
            var before := UsedOver(names, targets, k, i);
            UsedOver(names, targets, k, i + 1) == if Active(vm) && t in names then before[t := before[t] + vm.usedGb]
              else before
  {
    forall u ensures UsedInto(targets, k, i + 1, u) == UsedInto(targets, k, i, u)
      + (if Active(k.vms[i].vm) && Tgt(targets, k.src, k.vms[i].vm.cluster) == u then k.vms[i].vm.usedGb else 0.0) {
    }
  }

  function KeyTarget(hostT: map<string, string>, h: Host): string {
    if HostKey(h.name) in hostT then hostT[HostKey(h.name)] else ""
  }

  predicate TargetAmong(hostT: map<string, string>, hosts: seq<Host>, t: string) {
    exists i :: 0 <= i < |hosts| && t == KeyTarget(hostT, hosts[i])
  }

  lemma TargetAmongPush(hostT: map<string, string>, hosts: seq<Host>, t: string)
    requires hosts != []
    ensures TargetAmong(hostT, hosts, t)
            <==> TargetAmong(hostT, hosts[..|hosts|-1], t) || t == KeyTarget(hostT, hosts[|hosts|-1])
  {
    var front := hosts[..|hosts|-1];
    if i :| 0 <= i < |front| && t == KeyTarget(hostT, front[i]) {
      assert hosts[i] == front[i];
    }
    if i :| 0 <= i < |hosts| - 1 && t == KeyTarget(hostT, hosts[i]) {
      assert front[i] == hosts[i];
    }
  }

  lemma {:induction false} HostTargetAmong(hostT: map<string, string>, hosts: seq<Host>, t: string)
    ensures t in HostFileTargets(hostT, hosts) <==> TargetAmong(hostT, hosts, t)
  {
    if hosts != [] {
      HostTargetAmong(hostT, hosts[..|hosts|-1], t);
      TargetAmongPush(hostT, hosts, t);
    }
  }

  lemma {:induction false} HostFileTargetsMeaning(hostT: map<string, string>, hosts: seq<Host>)
    ensures Distinct(HostFileTargets(hostT, hosts))
    ensures forall t :: t in HostFileTargets(hostT, hosts)
              <==> exists i :: 0 <= i < |hosts| && t == KeyTarget(hostT, hosts[i])
  {
    if hosts != [] {
      HostFileTargetsMeaning(hostT, hosts[..|hosts|-1]);
    }
    forall t
      ensures t in HostFileTargets(hostT, hosts) <==> exists i :: 0 <= i < |hosts| && t == KeyTarget(hostT, hosts[i])
    {
      HostTargetAmong(hostT, hosts, t);
    }
  }

  predicate VmAmong(targets: Targets, k: Kept, n: nat, t: string)
    requires n <= |k.vms|
  {
    exists i :: 0 <= i < n && t == Tgt(targets, k.src, k.vms[i].vm.cluster)
  }

  lemma VmAmongStep(targets: Targets, k: Kept, n: nat, t: string)
    requires 0 < n <= |k.vms|
    ensures VmAmong(targets, k, n, t)
            <==> VmAmong(targets, k, n - 1, t) || t == Tgt(targets, k.src, k.vms[n-1].vm.cluster)
  {
  }

  lemma {:induction false} FileTargetsMeaning(targets: Targets, hostT: map<string, string>, k: Kept, n: nat)
    requires n <= |k.vms|
    ensures Distinct(FileTargets(targets, hostT, k, n))
    ensures forall t :: t in FileTargets(targets, hostT, k, n) <==>
              t in HostFileTargets(hostT, k.hosts) || VmAmong(targets, k, n, t)
  {
    if n == 0 {
      HostFileTargetsMeaning(hostT, k.hosts);
    } else {
      FileTargetsMeaning(targets, hostT, k, n - 1);
      forall t
        ensures VmAmong(targets, k, n, t)
                <==> VmAmong(targets, k, n - 1, t) || t == Tgt(targets, k.src, k.vms[n-1].vm.cluster)
      {
        VmAmongStep(targets, k, n, t);
      }
    }
  }

  lemma FileTargetsCover(targets: Targets, k: Kept)
    ensures forall i :: 0 <= i < |k.vms| ==> Tgt(targets, k.src, k.vms[i].vm.cluster) in AllFileTargets(targets, k)
    ensures Distinct(AllFileTargets(targets, k))
  {
    FileTargetsMeaning(targets, HostTargets(targets, k.src, k.hosts), k, |k.vms|);
    forall i | 0 <= i < |k.vms| ensures VmAmong(targets, k, |k.vms|, Tgt(targets, k.src, k.vms[i].vm.cluster)) {
    }
  }

  /** Maps every spelling of a host, in the host list or in a mount, to its target. */
  method CollectMountTargets(targets: Targets, k: Kept, hostT: map<string, string>)
    returns (mountT: map<string, string>)
    requires hostT == HostTargets(targets, k.src, k.hosts)
    ensures mountT == FileMounts(targets, k)
  {
    var names: set<string> := {};
    for i := 0 to |k.hosts|
      invariant names == HostNames(k.hosts[..i])
    {
      assert k.hosts[..i+1][..i] == k.hosts[..i];
      names := names + {k.hosts[i].name};
    }
    assert k.hosts[..|k.hosts|] == k.hosts;
    for d := 0 to |k.stores|
      invariant names == HostNames(k.hosts) + StoreMounts(k.stores[..d])
    {
      assert k.stores[..d+1][..d] == k.stores[..d];
      names := names + MountSet(k.stores[d].mounts);
    }
    assert k.stores[..|k.stores|] == k.stores;
    mountT := MountMap(hostT, names);
  }

  type StoreLists = map<string, seq<Placed<Store>>>

  /** extend() of each target's list with the file's attributed datastores. */
  method PlaceStores(lists0: StoreLists, targets: Targets, k: Kept, hostT: map<string, string>)
    returns (lists: StoreLists)
    requires VmsMapped(targets, k) && hostT == HostTargets(targets, k.src, k.hosts)
    ensures forall t :: ListAt(lists, t) == ListAt(lists0, t) + Tagged(t, k.src, FileStores(targets, k, t))
  {
    var names := CollectFileTargets(targets, k, hostT);
    if k.stores == [] || names == [] {
      lists := lists0;
      return;
    }
    var mountT := CollectMountTargets(targets, k, hostT);
    FileTargetsCover(targets, k);
    var used := SumUsed(targets, k, names);
    var attributed := AttributeDatastores(k.stores, mountT, names, used);
    lists := AppendStores(lists0, attributed, k.src);
    forall t ensures Bucket(attributed, t) == FileStores(targets, k, t) {
    }
  }

  method AppendStores(lists0: StoreLists, attributed: map<string, seq<Store>>, src: nat) returns (lists: StoreLists)
    ensures forall t :: ListAt(lists, t) == ListAt(lists0, t) + Tagged(t, src, Bucket(attributed, t))
  {
    lists := map t | t in lists0.Keys + attributed.Keys :: ListAt(lists0, t) + Tagged(t, src, Bucket(attributed, t));
  }

  /** All per-target lists after the re-cut. */
  datatype Recut = Recut(hosts: Lists<Host>, vms: Lists<Copy>, perfs: Lists<HostRow>, nics: Lists<HostRow>,
                         stores: StoreLists)

  ghost predicate RecutOf(r: Recut, targets: Targets, kept: seq<Kept>) {
    && Sorted(r.hosts, AllHosts(targets, kept))
    && Sorted(r.vms, AllVms(targets, kept))
    && Sorted(r.perfs, AllPerfs(targets, kept))
    && Sorted(r.nics, AllNics(targets, kept))
    && forall t :: ListAt(r.stores, t) == StoresInto(targets, kept, t)
  }

  method RecutFile(r0: Recut, ghost done: seq<Kept>, targets: Targets, k: Kept) returns (r: Recut)
    requires RecutOf(r0, targets, done) && HostsMapped(targets, k) && VmsMapped(targets, k)
    ensures RecutOf(r, targets, done + [k])
  {
    ghost var next := done + [k];
    assert next[..|next|-1] == done;
    var hosts, hostT := PlaceHosts(r0.hosts, AllHosts(targets, done), targets, k);
    var vms := PlaceVms(r0.vms, AllVms(targets, done), targets, k);
    var perfs := PlaceRows(r0.perfs, AllPerfs(targets, done), hostT, k.src, k.perfs);
    var nics := PlaceRows(r0.nics, AllNics(targets, done), hostT, k.src, k.nics);
    var stores := PlaceStores(r0.stores, targets, k, hostT);
    r := Recut(hosts, vms, perfs, nics, stores);
  }

  lemma NothingRecut(targets: Targets)
    ensures RecutOf(Recut(map[], map[], map[], map[], map[]), targets, [])
  {
  }

  method RecutAll(targets: Targets, kept: seq<Kept>) returns (r: Recut)
    requires forall i :: 0 <= i < |kept| ==> HostsMapped(targets, kept[i]) && VmsMapped(targets, kept[i])
    ensures RecutOf(r, targets, kept)
  {
    r := Recut(map[], map[], map[], map[], map[]);
    ghost var done: seq<Kept> := [];
    NothingRecut(targets);
    for i := 0 to |kept|
      invariant done == kept[..i]
      invariant RecutOf(r, targets, done)
    {
      r := RecutFile(r, done, targets, kept[i]);
      done := done + [kept[i]];
    }
    assert kept[..|kept|] == kept;
  }
}
