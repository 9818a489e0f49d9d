/** What every reported target is given of each file's datastores. */
module EstateStores {
  import opened Text
  import opened Sequences
  import opened EstateModel
  import opened Overlaps
  import opened EstateKeep
  import opened EstateRecut
  import opened EstateTargets
  import opened EstateMerge
  import opened EstateMapping
  import opened Datastores

  function Records(list: seq<Placed<Store>>): seq<Store> {
    seq(|list|, i requires 0 <= i < |list| => list[i].rec)
  }

  /** A target's part of one file: from each datastore what it is due, by the targets of its mounting hosts and the
      used storage of the file's targets. */
  ghost predicate OfFile(part: seq<Placed<Store>>, targets: Targets, k: Kept, t: string) {
    && (forall p :: p in part ==> p.target == t && p.src == k.src)
    && if k.stores == [] || AllFileTargets(targets, k) == [] then part == []
       else ReceivesAll(Records(part), k.stores, FileMounts(targets, k), AllFileTargets(targets, k),
                        UsedMap(targets, k, |k.vms|), t)
  }

  /** File by file, in upload order. */
  ghost predicate OfFiles(list: seq<Placed<Store>>, targets: Targets, kept: seq<Kept>, t: string)
    decreases kept
  {
    if kept == [] then list == []
    else exists n :: 0 <= n <= |list|
                     && OfFiles(list[..n], targets, kept[..|kept|-1], t)
                     && OfFile(list[n..], targets, kept[|kept|-1], t)
  }

  lemma FileGives(targets: Targets, k: Kept, t: string)
    ensures OfFile(Tagged(t, k.src, FileStores(targets, k, t)), targets, k, t)
  {
    var part := Tagged(t, k.src, FileStores(targets, k, t));
    assert Records(part) == FileStores(targets, k, t);
    FileTargetsCover(targets, k);
    if k.stores != [] && AllFileTargets(targets, k) != [] {
      AllReceived(k.stores, FileMounts(targets, k), AllFileTargets(targets, k), UsedMap(targets, k, |k.vms|), t);
    }
  }

  lemma {:induction false} FilesGive(targets: Targets, kept: seq<Kept>, t: string)
    ensures OfFiles(StoresInto(targets, kept, t), targets, kept, t)
  {
    if kept != [] {
      var front, last := kept[..|kept|-1], kept[|kept|-1];
      FilesGive(targets, front, t);
      FileGives(targets, last, t);
      var had, more := StoresInto(targets, front, t), Tagged(t, last.src, FileStores(targets, last, t));
      var list := StoresInto(targets, kept, t);
      assert list == had + more && list[..|had|] == had && list[|had|..] == more;
    }
  }

  /** Every target the merge reports is given, file by file and datastore by datastore, exactly what it is due. */
  lemma TargetsReceive(live: seq<File>, d: Decisions, targets: Targets, names: seq<string>, m: MergedTarget)
    requires m in Finished(targets, KeptAll(d, live), names)
    ensures OfFiles(m.stores, targets, KeptAll(d, live), m.name)
  {
    FinishedNames(targets, KeptAll(d, live), names, m);
    FilesGive(targets, KeptAll(d, live), m.name);
  }

  // ── by what a file's datastores are shared ────────────────────────────────

  /** Where the file's last host of a key was put. */
  ghost predicate KeyAt(targets: Targets, k: Kept, i: nat, t: string) {
    i < |k.hosts| && LastOfKey(k.hosts, i, HostKey(k.hosts[i].name)) && Tgt(targets, k.src, k.hosts[i].cluster) == t
  }

  lemma HostTargetIs(targets: Targets, k: Kept, h: Host) returns (i: nat)
    requires h in k.hosts
    ensures LastOfKey(k.hosts, i, HostKey(h.name)) && HostKey(k.hosts[i].name) == HostKey(h.name)
    ensures KeyAt(targets, k, i, KeyTarget(HostTargets(targets, k.src, k.hosts), h))
  {
    var key := HostKey(h.name);
    KeysOfMeaning(k.hosts, key);
    HostTargetsMeaning(targets, k.src, k.hosts, key);
    i := LastHost(targets, k.src, k.hosts, key);
  }

  /** A file shares its datastores among the targets of its VMs and of the last host of each key, each once. */
  lemma SharedAmong(targets: Targets, k: Kept, t: string)
    ensures Distinct(AllFileTargets(targets, k))
    ensures t in AllFileTargets(targets, k)
            <==> || (exists i: nat :: KeyAt(targets, k, i, t))
                 || (exists j :: 0 <= j < |k.vms| && Tgt(targets, k.src, k.vms[j].vm.cluster) == t)
  {
    var hostT := HostTargets(targets, k.src, k.hosts);
    FileTargetsMeaning(targets, hostT, k, |k.vms|);
    HostFileTargetsMeaning(hostT, k.hosts);
    if i :| 0 <= i < |k.hosts| && t == KeyTarget(hostT, k.hosts[i]) {
      var last := HostTargetIs(targets, k, k.hosts[i]);
      assert KeyAt(targets, k, last, t);
    }
    if i: nat :| KeyAt(targets, k, i, t) {
      var last := HostTargetIs(targets, k, k.hosts[i]);
      assert last == i && t == KeyTarget(hostT, k.hosts[i]);
    }
  }

  lemma {:induction false} StoreMountsMean(stores: seq<Store>, m: string)
    ensures m in StoreMounts(stores) <==> exists s :: s in stores && m in s.mounts
  {
    if stores != [] {
      var front, last := stores[..|stores|-1], stores[|stores|-1];
      StoreMountsMean(front, m);
      assert stores == front + [last];
      if s :| s in stores && m in s.mounts {
        assert s in front || s == last;
      }
    }
  }

  /** A mount counts for the target of the file's last host of that key, however either spells it; a mount of no kept
      host counts for none. */
  lemma MountCounts(targets: Targets, k: Kept, s: Store, m: string)
    requires s in k.stores && m in s.mounts
    ensures m in FileMounts(targets, k) <==> exists h :: h in k.hosts && HostKey(h.name) == HostKey(m)
    ensures m in FileMounts(targets, k) ==>
              exists i: nat :: LastOfKey(k.hosts, i, HostKey(m))
                               && FileMounts(targets, k)[m] == Tgt(targets, k.src, k.hosts[i].cluster)
  {
    StoreMountsMean(k.stores, m);
    HostTargetsMeaning(targets, k.src, k.hosts, HostKey(m));
    KeysOfMeaning(k.hosts, HostKey(m));
  }

  /** The used storage of a target is that of its VMs that are on and no templates. */
  lemma UsedCounted(targets: Targets, k: Kept, n: nat, t: string)
    requires n < |k.vms|
    ensures UsedInto(targets, k, 0, t) == 0.0
    ensures var vm := k.vms[n].vm;
            UsedInto(targets, k, n + 1, t)
            == UsedInto(targets, k, n, t)
               + (if vm.poweredOn && !vm.template && Tgt(targets, k.src, vm.cluster) == t then vm.usedGb else 0.0)
    ensures forall c :: c in AllFileTargets(targets, k) ==>
              c in UsedMap(targets, k, |k.vms|) && UsedMap(targets, k, |k.vms|)[c] == UsedInto(targets, k, |k.vms|, c)
  {
  }
}
