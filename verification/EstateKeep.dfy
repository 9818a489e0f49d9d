/** The keep step of the merge: the chosen copies of every file. */
module EstateKeep {
  import opened Text
  import opened Sequences
  import opened EstateModel
  import opened Reachability
  import opened VmClasses
  import opened Overlaps

  /** One file's kept records; every copy carries its place in the file. */
  datatype Kept = Kept(src: nat, hosts: seq<Host>, perfs: seq<HostRow>, nics: seq<HostRow>,
                       stores: seq<Store>, vms: seq<Copy>)

  predicate KeepsHostKey(d: Decisions, src: nat, k: string) {
    HostEntity(k) in d.choice ==> d.choice[HostEntity(k)] == KeepFile(src)
  }

  predicate KeepsVm(d: Decisions, node: VmNode) {
    node in d.vmEntity && VmEntity(d.vmEntity[node]) in d.choice ==>
      d.choice[VmEntity(d.vmEntity[node])] in {KeepFile(node.src), KeepBoth}
  }

  function HostPicker(d: Decisions, src: nat): Host -> bool {
    (h: Host) => KeepsHostKey(d, src, HostKey(h.name))
  }

  function VmPicker(d: Decisions): Copy -> bool {
    (c: Copy) => KeepsVm(d, c.node)
  }

  function RowPicker(keys: set<string>): HostRow -> bool {
    (r: HostRow) => HostKey(r.host) in keys
  }

  function MountPicker(keys: set<string>): string -> bool {
    (m: string) => HostKey(m) in keys
  }

  function KeptHosts(d: Decisions, file: File): seq<Host> {
    Filter(file.hosts, HostPicker(d, file.id))
  }

  function KeysOf(hosts: seq<Host>): set<string> {
    if hosts == [] then {} else KeysOf(hosts[..|hosts|-1]) + {HostKey(hosts[|hosts|-1].name)}
  }

  /** A datastore follows its mounting hosts; one without mounts stays while
      its file keeps a host, or has none at all. */
  function KeepStore(keys: set<string>, anyHosts: bool, s: Store): Option<Store> {
    if s.mounts != [] then
      var left := Filter(s.mounts, MountPicker(keys));
      if left == [] then None else Some(s.(mounts := left))
    else if keys != {} || !anyHosts then Some(s)
    else None
  }

  function KeptStores(keys: set<string>, anyHosts: bool, stores: seq<Store>): seq<Store> {
    if stores == [] then []
    else
      var rest := KeptStores(keys, anyHosts, stores[..|stores|-1]);
      match KeepStore(keys, anyHosts, stores[|stores|-1])
      case None => rest
      case Some(s) => rest + [s]
  }

  function KeptOf(d: Decisions, file: File): Kept {
    var hosts := KeptHosts(d, file);
    var keys := KeysOf(hosts);
    Kept(file.id, hosts,
         Filter(file.perfs, RowPicker(keys)), Filter(file.nics, RowPicker(keys)),
         KeptStores(keys, file.hosts != [], file.stores),
         Filter(CopiesUpTo(file, |file.vms|), VmPicker(d)))
  }

  function KeptAll(d: Decisions, live: seq<File>): (all: seq<Kept>)
    ensures |all| == |live| && forall i :: 0 <= i < |live| ==> all[i] == KeptOf(d, live[i])
  {
    seq(|live|, i requires 0 <= i < |live| => KeptOf(d, live[i]))
  }

  // ── the loops ─────────────────────────────────────────────────────────────

  lemma KeysPush(hosts: seq<Host>, h: Host)
    ensures KeysOf(hosts + [h]) == KeysOf(hosts) + {HostKey(h.name)}
  {
    assert (hosts + [h])[..|hosts|] == hosts;
  }

  lemma KeptHostsStep(d: Decisions, file: File, kept: seq<Host>, i: nat)
    requires i < |file.hosts| && kept == Filter(file.hosts[..i], HostPicker(d, file.id))
    ensures var h := file.hosts[i]; var pick := HostPicker(d, file.id);
            && Filter(file.hosts[..i+1], pick)
               == (if KeepsHostKey(d, file.id, HostKey(h.name)) then kept + [h] else kept)
            && KeysOf(kept + [h]) == KeysOf(kept) + {HostKey(h.name)}
  {
    FilterStep(file.hosts, i, HostPicker(d, file.id));
    KeysPush(kept, file.hosts[i]);
  }

  method KeepHosts(d: Decisions, file: File) returns (hosts: seq<Host>, keys: set<string>)
    ensures hosts == KeptHosts(d, file) && keys == KeysOf(hosts)
  {
    hosts, keys := [], {};
    for i := 0 to |file.hosts|
      invariant hosts == Filter(file.hosts[..i], HostPicker(d, file.id))
      invariant keys == KeysOf(hosts)
    {
      KeptHostsStep(d, file, hosts, i);
      var k := HostKey(file.hosts[i].name);
      if HostEntity(k) in d.choice && d.choice[HostEntity(k)] != KeepFile(file.id) {
        continue;
      }
      keys := keys + {k};
      hosts := hosts + [file.hosts[i]];
    }
    assert file.hosts[..|file.hosts|] == file.hosts;
  }

  method KeepRows(rows: seq<HostRow>, keys: set<string>) returns (kept: seq<HostRow>)
    ensures kept == Filter(rows, RowPicker(keys))
  {
    kept := [];
    for i := 0 to |rows|
      invariant kept == Filter(rows[..i], RowPicker(keys))
    {
      FilterStep(rows, i, RowPicker(keys));
      if HostKey(rows[i].host) in keys {
        kept := kept + [rows[i]];
      }
    }
    assert rows[..|rows|] == rows;
  }

  method KeepMounts(mounts: seq<string>, keys: set<string>) returns (left: seq<string>)
    ensures left == Filter(mounts, MountPicker(keys))
  {
    left := [];
    for m := 0 to |mounts|
      invariant left == Filter(mounts[..m], MountPicker(keys))
    {
      FilterStep(mounts, m, MountPicker(keys));
      if HostKey(mounts[m]) in keys {
        left := left + [mounts[m]];
      }
    }
    assert mounts[..|mounts|] == mounts;
  }

  lemma KeptStoresStep(keys: set<string>, anyHosts: bool, stores: seq<Store>, i: nat)
    requires i < |stores|
    ensures var s := KeepStore(keys, anyHosts, stores[i]); var rest := KeptStores(keys, anyHosts, stores[..i]);
            KeptStores(keys, anyHosts, stores[..i+1]) == if s.Some? then rest + [s.value] else rest
  {
    assert stores[..i+1][..i] == stores[..i];
  }

  method KeepStores(keys: set<string>, anyHosts: bool, stores: seq<Store>) returns (kept: seq<Store>)
    ensures kept == KeptStores(keys, anyHosts, stores)
  {
    kept := [];
    for i := 0 to |stores|
      invariant kept == KeptStores(keys, anyHosts, stores[..i])
    {
      KeptStoresStep(keys, anyHosts, stores, i);
      var s := stores[i];
      if s.mounts != [] {
        var left := KeepMounts(s.mounts, keys);
        if left == [] {
          continue;
        }
        kept := kept + [s.(mounts := left)];
      } else if keys != {} || !anyHosts {
        kept := kept + [s];
      }
    }
    assert stores[..|stores|] == stores;
  }

  method KeepVms(d: Decisions, file: File) returns (kept: seq<Copy>)
    ensures kept == Filter(CopiesUpTo(file, |file.vms|), VmPicker(d))
  {
    kept := [];
    ghost var copies := CopiesUpTo(file, |file.vms|);
    for i := 0 to |file.vms|
      invariant kept == Filter(copies[..i], VmPicker(d))
    {
      FilterStep(copies, i, VmPicker(d));
      var node := VmNode(file.id, i);
      if node in d.vmEntity && VmEntity(d.vmEntity[node]) in d.choice {
        var c := d.choice[VmEntity(d.vmEntity[node])];
        if c != KeepFile(file.id) && c != KeepBoth {
          continue;
        }
      }
      kept := kept + [Copy(node, file.vms[i])];
    }
    assert copies[..|copies|] == copies;
  }

  method KeepFrom(d: Decisions, file: File) returns (kept: Kept)
    ensures kept == KeptOf(d, file)
  {
    var hosts, keys := KeepHosts(d, file);
    var perfs := KeepRows(file.perfs, keys);
    var nics := KeepRows(file.nics, keys);
    var stores := KeepStores(keys, file.hosts != [], file.stores);
    var vms := KeepVms(d, file);
    kept := Kept(file.id, hosts, perfs, nics, stores, vms);
  }

  method Keep(d: Decisions, live: seq<File>) returns (kept: seq<Kept>)
    ensures kept == KeptAll(d, live)
  {
    kept := [];
    ghost var all := KeptAll(d, live);
    for f := 0 to |live|
      invariant kept == all[..f]
    {
      var k := KeepFrom(d, live[f]);
      assert all[..f+1] == all[..f] + [all[f]];
      kept := kept + [k];
    }
    assert all[..|live|] == all;
  }

  // ── what is kept ──────────────────────────────────────────────────────────

  /** The merge keeps this VM record. */
  ghost predicate VmKept(d: Decisions, live: seq<File>, n: VmNode) {
    exists i, v :: 0 <= i < |live| && Copy(n, v) in KeptOf(d, live[i]).vms
  }

  /** The merge keeps a host with this key from this file. */
  ghost predicate HostKeyKept(d: Decisions, live: seq<File>, src: nat, k: string) {
    exists i :: 0 <= i < |live| && live[i].id == src && k in KeysOf(KeptOf(d, live[i]).hosts)
  }

  lemma KeptCopies(d: Decisions, file: File, c: Copy)
    ensures c in KeptOf(d, file).vms <==>
      c.node.src == file.id && c.node.idx < |file.vms| && file.vms[c.node.idx] == c.vm && KeepsVm(d, c.node)
  {
    var all := CopiesUpTo(file, |file.vms|);
    FilterMeaning(all, VmPicker(d));
    if c.node.src == file.id && c.node.idx < |file.vms| && file.vms[c.node.idx] == c.vm {
      assert all[c.node.idx] == c;
    }
  }

  lemma VmKeptMeaning(d: Decisions, live: seq<File>, n: VmNode)
    requires DistinctIds(live)
    ensures VmKept(d, live, n) <==> n in NodeMap(Copies(live)) && KeepsVm(d, n)
    ensures KeepsVm(d, n) <==> (n in d.vmEntity && VmEntity(d.vmEntity[n]) in d.choice ==>
                                  d.choice[VmEntity(d.vmEntity[n])] in {KeepFile(n.src), KeepBoth})
  {
    NodesAreInFiles(live, n);
    if i, v :| 0 <= i < |live| && Copy(n, v) in KeptOf(d, live[i]).vms {
      KeptCopies(d, live[i], Copy(n, v));
      assert HasVm(live, n, v);
    }
    if n in NodeMap(Copies(live)) && KeepsVm(d, n) {
      var v := NodeMap(Copies(live))[n];
      var i :| 0 <= i < |live| && live[i].id == n.src && n.idx < |live[i].vms| && live[i].vms[n.idx] == v;
      KeptCopies(d, live[i], Copy(n, v));
    }
  }

  /** Of n's class, exactly the copies choice c names are kept. */
  ghost predicate ClassKeptAs(d: Decisions, live: seq<File>, n: VmNode, c: Choice) {
    && (forall m {:trigger VmKept(d, live, m)} :: m in NodeMap(Copies(live)) && SameVm(live, n, m) ==>
          (VmKept(d, live, m) <==> c == KeepBoth || c == KeepFile(m.src)))
    && exists m :: m in NodeMap(Copies(live)) && SameVm(live, n, m) && VmKept(d, live, m)
  }

  /** A VM in one file only is kept; a class in several keeps the copies of the
      chosen file (one at least) and no others, or all of them under "both". */
  lemma ClassKeepsChosenCopies(live: seq<File>, resolutions: map<Entity, Choice>, d: Decisions, n: VmNode)
    requires DistinctIds(live) && Decided(live, resolutions, d) && n in NodeMap(Copies(live))
    ensures !SpansFiles(live, NodeMap(Copies(live)), n) ==> VmKept(d, live, n)
    ensures SpansFiles(live, NodeMap(Copies(live)), n) ==>
              n in d.vmEntity && VmEntity(d.vmEntity[n]) in d.choice
              && ClassKeptAs(d, live, n, d.choice[VmEntity(d.vmEntity[n])])
  {
    var nodes := NodeMap(Copies(live));
    VmKeptMeaning(d, live, n);
    if SpansFiles(live, nodes, n) {
      assert EntityOf(live, nodes, d.vmEntity, d.srcs, n);
      var e := VmEntity(d.vmEntity[n]);
      var c := d.choice[e];
      forall m {:trigger VmKept(d, live, m)} | m in nodes && SameVm(live, n, m)
        ensures VmKept(d, live, m) <==> c == KeepBoth || c == KeepFile(m.src)
      {
        ClassHasOneKey(live, d.vmEntity, d.srcs, n, m);
        VmKeptMeaning(d, live, m);
      }
      ChosenFileHasCopy(live, resolutions, d, n);
    }
  }

  lemma ChosenFileHasCopy(live: seq<File>, resolutions: map<Entity, Choice>, d: Decisions, n: VmNode)
    requires DistinctIds(live) && Decided(live, resolutions, d)
    requires n in d.vmEntity && VmEntity(d.vmEntity[n]) in d.choice
    ensures exists m :: m in NodeMap(Copies(live)) && SameVm(live, n, m) && VmKept(d, live, m)
  {
    var nodes := NodeMap(Copies(live));
    assert EntityOf(live, nodes, d.vmEntity, d.srcs, n);
    var e := VmEntity(d.vmEntity[n]);
    var c := d.choice[e];
    var s := if c.KeepFile? then c.src else d.vmEntity[n].src;
    assert InClass(live, nodes, n, d.vmEntity[n]);
    assert s in d.srcs[e];
    var m :| InClass(live, nodes, n, m) && m.src == s;
    ClassHasOneKey(live, d.vmEntity, d.srcs, n, m);
    VmKeptMeaning(d, live, m);
  }

  /** No VM disappears: some copy of every class is kept. */
  lemma NoVmClassVanishes(live: seq<File>, resolutions: map<Entity, Choice>, d: Decisions, n: VmNode)
    requires DistinctIds(live) && Decided(live, resolutions, d) && n in NodeMap(Copies(live))
    ensures exists m :: SameVm(live, n, m) && VmKept(d, live, m)
  {
    ClassKeepsChosenCopies(live, resolutions, d, n);
    if !SpansFiles(live, NodeMap(Copies(live)), n) {
      ConnectedRefl(UuidEdges(Copies(live)) + NameEdges(Copies(live)), n);
    }
  }

  lemma {:induction false} KeysOfMeaning(hosts: seq<Host>, k: string)
    ensures k in KeysOf(hosts) <==> exists h :: h in hosts && HostKey(h.name) == k
  {
    if hosts != [] {
      var front, last := hosts[..|hosts|-1], hosts[|hosts|-1];
      KeysOfMeaning(front, k);
      assert hosts == front + [last];
      if h :| h in hosts && HostKey(h.name) == k {
        assert h in front || h == last;
      }
    }
  }

  lemma {:induction false} HostKeysMeaning(file: File, n: nat, k: string)
    requires n <= |file.hosts|
    ensures k in HostKeysUpTo(file, n) <==> k != "" && KeyAmong(file, n, k)
  {
    if n > 0 {
      HostKeysMeaning(file, n - 1, k);
      KeyAmongPush(file, n, k);
    }
  }

  lemma KeyAmongPush(file: File, n: nat, k: string)
    requires 0 < n <= |file.hosts|
    ensures KeyAmong(file, n, k) <==> KeyAmong(file, n - 1, k) || HostKey(file.hosts[n-1].name) == k
  {
  }

  predicate KeyAmong(file: File, n: nat, k: string)
    requires n <= |file.hosts|
  {
    exists i :: 0 <= i < n && HostKey(file.hosts[i].name) == k
  }

  lemma KeptKeys(d: Decisions, file: File, k: string)
    requires k != ""
    ensures k in KeysOf(KeptHosts(d, file)) <==> k in HostKeys(file) && KeepsHostKey(d, file.id, k)
  {
    KeysOfMeaning(KeptHosts(d, file), k);
    FilterMeaning(file.hosts, HostPicker(d, file.id));
    HostKeysMeaning(file, |file.hosts|, k);
    if k in HostKeys(file) && KeepsHostKey(d, file.id, k) {
      var i :| 0 <= i < |file.hosts| && HostKey(file.hosts[i].name) == k;
      assert file.hosts[i] in KeptHosts(d, file);
    }
  }

  predicate AllMountsDropped(keys: set<string>, s: Store) {
    s.mounts != [] && forall i :: 0 <= i < |s.mounts| ==> HostKey(s.mounts[i]) !in keys
  }

  /** A datastore goes exactly when all its mounts go, or when it has none and its file keeps no host of those it had;
      one that stays keeps exactly its mounts on kept hosts, in order, and nothing else about it changes. */
  lemma StoreKeptMeaning(keys: set<string>, anyHosts: bool, s: Store)
    ensures KeepStore(keys, anyHosts, s).None?
            <==> AllMountsDropped(keys, s) || (s.mounts == [] && keys == {} && anyHosts)
    ensures KeepStore(keys, anyHosts, s).Some? ==>
              var out := KeepStore(keys, anyHosts, s).value;
              && out == s.(mounts := out.mounts)
              && out.mounts == Filter(s.mounts, MountPicker(keys))
              && forall m :: m in out.mounts <==> m in s.mounts && HostKey(m) in keys
  {
    FilterMeaning(s.mounts, MountPicker(keys));
    FilterNone(s.mounts, MountPicker(keys));
  }

  /** The kept datastores of a file are exactly those of its datastores that stay, each cut to its kept mounts. */
  lemma {:induction false} KeptStoresMeaning(keys: set<string>, anyHosts: bool, stores: seq<Store>, out: Store)
    ensures out in KeptStores(keys, anyHosts, stores)
            <==> exists s :: s in stores && KeepStore(keys, anyHosts, s) == Some(out)
  {
    if stores != [] {
      var front, last := stores[..|stores|-1], stores[|stores|-1];
      KeptStoresMeaning(keys, anyHosts, front, out);
      assert stores == front + [last];
      if s :| s in stores && KeepStore(keys, anyHosts, s) == Some(out) {
        assert s in front || s == last;
      }
    }
  }

  /** And none is kept twice: one for each datastore that stays. */
  lemma {:induction false} KeptStoresCount(keys: set<string>, anyHosts: bool, stores: seq<Store>)
    ensures |KeptStores(keys, anyHosts, stores)| == |Filter(stores, (s: Store) => KeepStore(keys, anyHosts, s).Some?)|
  {
    if stores != [] {
      KeptStoresCount(keys, anyHosts, stores[..|stores|-1]);
    }
  }

  /** A host of a file is kept exactly unless its key overlaps and another file is chosen for it. */
  lemma HostKeptMeaning(d: Decisions, file: File, h: Host)
    ensures h in KeptOf(d, file).hosts
            <==> h in file.hosts && (HostEntity(HostKey(h.name)) in d.choice ==>
                                       d.choice[HostEntity(HostKey(h.name))] == KeepFile(file.id))
  {
    FilterMeaning(file.hosts, HostPicker(d, file.id));
  }

  /** The file keeps a host of this name's key. */
  predicate KeepsHostOf(d: Decisions, file: File, name: string) {
    exists h :: h in KeptOf(d, file).hosts && HostKey(h.name) == HostKey(name)
  }

  /** A datastore stays while one of its mounts is a kept host; without mounts, while its file keeps a host or has
      none. */
  predicate Stays(d: Decisions, file: File, s: Store) {
    if s.mounts != [] then exists m :: m in s.mounts && KeepsHostOf(d, file, m)
    else KeptOf(d, file).hosts != [] || file.hosts == []
  }

  function Staying(d: Decisions, file: File): Store -> bool {
    (s: Store) => Stays(d, file, s)
  }

  function OfKeptHost(d: Decisions, file: File): string -> bool {
    (m: string) => KeepsHostOf(d, file, m)
  }

  lemma KeysNone(hosts: seq<Host>)
    ensures KeysOf(hosts) == {} <==> hosts == []
  {
    if hosts != [] {
      assert HostKey(hosts[|hosts|-1].name) in KeysOf(hosts);
    }
  }

  lemma StaysExactly(d: Decisions, file: File, s: Store)
    ensures KeepStore(KeysOf(KeptOf(d, file).hosts), file.hosts != [], s)
            == if Stays(d, file, s) then Some(s.(mounts := Filter(s.mounts, OfKeptHost(d, file)))) else None
  {
    var hosts := KeptOf(d, file).hosts;
    var keys := KeysOf(hosts);
    KeysNone(hosts);
    forall m ensures HostKey(m) in keys <==> KeepsHostOf(d, file, m) {
      KeysOfMeaning(hosts, HostKey(m));
    }
    StoreKeptMeaning(keys, file.hosts != [], s);
    FilterSame(s.mounts, MountPicker(keys), OfKeptHost(d, file));
    if s.mounts != [] && !AllMountsDropped(keys, s) {
      var i :| 0 <= i < |s.mounts| && HostKey(s.mounts[i]) in keys;
      assert s.mounts[i] in s.mounts;
    }
  }

  /** A file's kept datastores are those that stay, in order, each with exactly its mounts on kept hosts. */
  lemma StoresKeptMeaning(d: Decisions, file: File)
    ensures var stays, kept := Filter(file.stores, Staying(d, file)), KeptOf(d, file).stores;
            && |kept| == |stays|
            && forall i :: 0 <= i < |stays| ==>
                 kept[i] == stays[i].(mounts := Filter(stays[i].mounts, OfKeptHost(d, file)))
  {
    StoresStay(d, file, file.stores);
  }

  lemma {:induction false} StoresStay(d: Decisions, file: File, stores: seq<Store>)
    ensures var stays := Filter(stores, Staying(d, file));
            var kept := KeptStores(KeysOf(KeptOf(d, file).hosts), file.hosts != [], stores);
            && |kept| == |stays|
            && forall i :: 0 <= i < |stays| ==>
                 kept[i] == stays[i].(mounts := Filter(stays[i].mounts, OfKeptHost(d, file)))
  {
    if stores != [] {
      StoresStay(d, file, stores[..|stores|-1]);
      StaysExactly(d, file, stores[|stores|-1]);
    }
  }

  /** Each non-blank host key survives, and from exactly one file: the one chosen for it, if several have it. */
  lemma HostKeyKeptOnce(live: seq<File>, resolutions: map<Entity, Choice>, d: Decisions, k: string)
    requires DistinctIds(live) && Decided(live, resolutions, d)
    requires k != "" && FilesWithHost(live, k) != {}
    ensures exists s :: && HostKeyKept(d, live, s, k) && (forall t :: HostKeyKept(d, live, t, k) ==> t == s)
                        && (HostEntity(k) in d.choice ==> d.choice[HostEntity(k)] == KeepFile(s))
  {
    var files := FilesWithHost(live, k);
    var s :| s in files && KeepsHostKey(d, s, k);
    var i :| 0 <= i < |live| && k in HostKeys(live[i]) && live[i].id == s;
    KeptKeys(d, live[i], k);
    assert HostKeyKept(d, live, s, k);
    forall t | HostKeyKept(d, live, t, k)
      ensures t == s
    {
      var j :| 0 <= j < |live| && live[j].id == t && k in KeysOf(KeptOf(d, live[j]).hosts);
      KeptKeys(d, live[j], k);
      assert t in files;
      if HostEntity(k) !in d.choice {
        assert |files| < 2;
        TwoFiles(files, s);
      }
    }
  }

  /** Every kept performance or NIC row belongs to a host kept from its file,
      and every row of such a host is kept. */
  lemma RowsFollowHosts(d: Decisions, file: File, r: HostRow)
    ensures r in KeptOf(d, file).perfs <==>
      r in file.perfs && exists h :: h in KeptOf(d, file).hosts && HostKey(h.name) == HostKey(r.host)
    ensures r in KeptOf(d, file).nics <==>
      r in file.nics && exists h :: h in KeptOf(d, file).hosts && HostKey(h.name) == HostKey(r.host)
  {
    var keys := KeysOf(KeptHosts(d, file));
    FilterMeaning(file.perfs, RowPicker(keys));
    FilterMeaning(file.nics, RowPicker(keys));
    KeysOfMeaning(KeptHosts(d, file), HostKey(r.host));
  }
}
