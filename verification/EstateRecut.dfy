/** Groups, the user's mapping, and the re-cut of the kept records into targets. */
module EstateRecut {
  import opened Text
  import opened Sequences
  import opened EstateModel
  import opened EstateKeep

  const SKIP := "__skip__"
  const STANDALONE_TARGET := "Standalone hosts"
  const TARGET_LENGTH := 120

  /** A (file, source cluster) pair, or the one group of all unclustered records. */
  datatype GroupKey = Standalone | InFile(src: nat, cluster: string)

  function GroupOf(src: nat, cluster: string): GroupKey {
    if Strip(cluster) == "" then Standalone else InFile(src, Strip(cluster))
  }

  function Add(keys: seq<GroupKey>, k: GroupKey): seq<GroupKey> {
    if k in keys then keys else keys + [k]
  }

  function AddHostGroups(keys: seq<GroupKey>, src: nat, hosts: seq<Host>): seq<GroupKey> {
    if hosts == [] then keys
    else Add(AddHostGroups(keys, src, hosts[..|hosts|-1]), GroupOf(src, hosts[|hosts|-1].cluster))
  }

  function AddVmGroups(keys: seq<GroupKey>, src: nat, vms: seq<Vm>): seq<GroupKey> {
    if vms == [] then keys
    else Add(AddVmGroups(keys, src, vms[..|vms|-1]), GroupOf(src, vms[|vms|-1].cluster))
  }

  /** Every group once, file by file, as its hosts and then its VMs name it. */
  function Groups(live: seq<File>): seq<GroupKey> {
    if live == [] then []
    else
      var f := live[|live|-1];
      AddVmGroups(AddHostGroups(Groups(live[..|live|-1]), f.id, f.hosts), f.id, f.vms)
  }

  // ── mapping ───────────────────────────────────────────────────────────────

  function RawHosts(live: seq<File>, src: nat, cluster: string): set<string> {
    set i, j | 0 <= i < |live| && live[i].id == src && 0 <= j < |live[i].hosts|
             && Strip(live[i].hosts[j].cluster) == cluster :: HostKey(live[i].hosts[j].name)
  }

  /** Another file has a cluster of this name that shares a host with it. */
  predicate LikelySame(live: seq<File>, groups: seq<GroupKey>, g: GroupKey) {
    && g.InFile?
    && exists i :: 0 <= i < |groups| && groups[i] != g && SharesHost(live, g, groups[i])
  }

  predicate SharesHost(live: seq<File>, g: GroupKey, other: GroupKey) {
    && g.InFile? && other.InFile? && other.cluster == g.cluster
    && RawHosts(live, g.src, g.cluster) * RawHosts(live, other.src, g.cluster) != {}
  }

  predicate SharesName(groups: seq<GroupKey>, g: GroupKey) {
    exists i :: 0 <= i < |groups| && groups[i] != g && groups[i].InFile? && g.InFile? && groups[i].cluster == g.cluster
  }

  predicate NameIsSame(live: seq<File>, groups: seq<GroupKey>, cluster: string) {
    exists i :: 0 <= i < |groups| && groups[i].InFile? && groups[i].cluster == cluster
                && LikelySame(live, groups, groups[i])
  }

  function StemOf(live: seq<File>, src: nat): string {
    if live == [] then ""
    else if live[|live|-1].id == src then live[|live|-1].stem
    else StemOf(live[..|live|-1], src)
  }

  /** Its own name by default; a name that several files use gets the stem
      appended, except where it is taken for one cluster. */
  function DefaultTarget(live: seq<File>, groups: seq<GroupKey>, g: GroupKey): string {
    match g
    case Standalone => STANDALONE_TARGET
    case InFile(src, cluster) =>
      if SharesName(groups, g) && !NameIsSame(live, groups, cluster) then cluster + " · " + StemOf(live, src)
      else cluster
  }

  lemma SuffixesDiffer(a: string, b: string, c: string)
    ensures a + b == a + c <==> b == c
  {
    assert (a + b)[|a|..] == b && (a + c)[|a|..] == c;
  }

  /** Two listed clusters of this name share a host. */
  predicate PairShares(live: seq<File>, groups: seq<GroupKey>, cluster: string, x: GroupKey, y: GroupKey) {
    x in groups && y in groups && x != y && x.InFile? && x.cluster == cluster && SharesHost(live, x, y)
  }

  /** Two clusters of this name, and not this very pair, share a host. */
  ghost predicate OthersShare(live: seq<File>, groups: seq<GroupKey>, g: GroupKey, h: GroupKey)
    requires g.InFile?
  {
    exists x, y :: PairShares(live, groups, g.cluster, x, y) && !(x == g && y == h) && !(x == h && y == g)
  }

  lemma SharesHostBothWays(live: seq<File>, x: GroupKey, y: GroupKey)
    ensures SharesHost(live, x, y) ==> SharesHost(live, y, x)
  {
    if SharesHost(live, x, y) {
      var a, b := RawHosts(live, x.src, x.cluster), RawHosts(live, y.src, x.cluster);
      assert a * b == b * a;
    }
  }

  lemma MarkedByPair(live: seq<File>, groups: seq<GroupKey>, cluster: string) returns (x: GroupKey, y: GroupKey)
    requires NameIsSame(live, groups, cluster)
    ensures PairShares(live, groups, cluster, x, y)
  {
    var i :| 0 <= i < |groups| && groups[i].InFile? && groups[i].cluster == cluster
             && LikelySame(live, groups, groups[i]);
    var j :| 0 <= j < |groups| && groups[j] != groups[i] && SharesHost(live, groups[i], groups[j]);
    x, y := groups[i], groups[j];
  }

  lemma NameIsSameMeaning(live: seq<File>, groups: seq<GroupKey>, g: GroupKey, h: GroupKey)
    requires g in groups && h in groups && g.InFile? && h.InFile? && g != h && g.cluster == h.cluster
    ensures NameIsSame(live, groups, g.cluster) <==> SharesHost(live, g, h) || OthersShare(live, groups, g, h)
  {
    if NameIsSame(live, groups, g.cluster) {
      var x, y := MarkedByPair(live, groups, g.cluster);
      SharesHostBothWays(live, x, y);
    }
    if SharesHost(live, g, h) {
      MarksTheName(live, groups, g, h);
    }
    if OthersShare(live, groups, g, h) {
      var x, y :| PairShares(live, groups, g.cluster, x, y) && !(x == g && y == h) && !(x == h && y == g);
      MarksTheName(live, groups, x, y);
    }
  }

  lemma MarksTheName(live: seq<File>, groups: seq<GroupKey>, x: GroupKey, y: GroupKey)
    requires x in groups && y in groups && x != y && SharesHost(live, x, y)
    ensures NameIsSame(live, groups, x.cluster)
  {
    var j :| 0 <= j < |groups| && groups[j] == y;
    assert LikelySame(live, groups, x);
  }

  /** Two files' clusters of one name default to one target exactly when they share a host, or the files have one stem,
      or some other two clusters of that name share a host: then these are joined without sharing any. */
  lemma SameNameOneTarget(live: seq<File>, groups: seq<GroupKey>, g: GroupKey, h: GroupKey)
    requires g in groups && h in groups && g.InFile? && h.InFile? && g != h && g.cluster == h.cluster
    ensures DefaultTarget(live, groups, g) == DefaultTarget(live, groups, h)
            <==> SharesHost(live, g, h) || StemOf(live, g.src) == StemOf(live, h.src) || OthersShare(live, groups, g, h)
  {
    NameIsSameMeaning(live, groups, g, h);
    assert SharesName(groups, g) && SharesName(groups, h);
    SuffixesDiffer(g.cluster + " · ", StemOf(live, g.src), StemOf(live, h.src));
  }

  // ── three files, one name ─────────────────────────────────────────────────

  const FIRST := File(0, "a", 0, [Host("x", "P", 0)], [], [], [], [])
  const SECOND := File(1, "b", 0, [Host("x", "P", 0)], [], [], [], [])
  const THIRD := File(2, "c", 0, [Host("y", "P", 0)], [], [], [], [])

  lemma ShortKey(c: char)
    requires 'a' <= c <= 'z'
    ensures HostKey([c]) == [c]
  {
    var s: string := [c];
    assert s[1..] == "" && Strip(s) == s;
    assert Lower(s) == [c] + Lower("") == s;
    assert SplitDots(s) == [[c] + SplitDots("")[0]] + SplitDots("")[1..];
    assert SplitDots("") == [""];
  }

  lemma RawHostsOf(live: seq<File>, i: nat, name: string)
    requires DistinctIds(live) && i < |live| && |live[i].hosts| == 1 && live[i].hosts[0] == Host(name, "P", 0)
    ensures RawHosts(live, live[i].id, "P") == {HostKey(name)}
  {
    assert Strip("P") == "P";
    assert HostKey(live[i].hosts[0].name) in RawHosts(live, live[i].id, "P");
  }

  lemma OneHostGroup(keys: seq<GroupKey>, src: nat, h: Host)
    requires h.cluster == "P"
    ensures AddVmGroups(AddHostGroups(keys, src, [h]), src, []) == Add(keys, InFile(src, "P"))
  {
    assert Strip("P") == "P" && [h][..0] == [];
    assert AddHostGroups(keys, src, [h][..0]) == keys;
  }

  lemma GroupsPush(live: seq<File>, f: File)
    requires |f.hosts| == 1 && f.hosts[0].cluster == "P" && f.vms == []
    ensures Groups(live + [f]) == Add(Groups(live), InFile(f.id, "P"))
  {
    assert (live + [f])[..|live|] == live && f.hosts == [f.hosts[0]];
    OneHostGroup(Groups(live), f.id, f.hosts[0]);
  }

  lemma ThreeGroups()
    ensures Groups([FIRST, SECOND, THIRD]) == [InFile(0, "P"), InFile(1, "P"), InFile(2, "P")]
    ensures Groups([FIRST, THIRD]) == [InFile(0, "P"), InFile(2, "P")]
  {
    GroupsPush([], FIRST);
    GroupsPush([FIRST], SECOND);
    GroupsPush([FIRST, SECOND], THIRD);
    GroupsPush([FIRST], THIRD);
    assert [] + [FIRST] == [FIRST] && [FIRST] + [SECOND] == [FIRST, SECOND] && [FIRST] + [THIRD] == [FIRST, THIRD];
    assert [FIRST, SECOND] + [THIRD] == [FIRST, SECOND, THIRD];
  }

  lemma WhoSharesHosts()
    ensures var live := [FIRST, SECOND, THIRD];
            && SharesHost(live, InFile(0, "P"), InFile(1, "P"))
            && !SharesHost(live, InFile(0, "P"), InFile(2, "P")) && !SharesHost(live, InFile(1, "P"), InFile(2, "P"))
    ensures !SharesHost([FIRST, THIRD], InFile(0, "P"), InFile(2, "P"))
    ensures !SharesHost([FIRST, THIRD], InFile(2, "P"), InFile(0, "P"))
  {
    var three, two := [FIRST, SECOND, THIRD], [FIRST, THIRD];
    ShortKey('x');
    ShortKey('y');
    RawHostsOf(three, 0, "x");
    RawHostsOf(three, 1, "x");
    RawHostsOf(three, 2, "y");
    RawHostsOf(two, 0, "x");
    RawHostsOf(two, 1, "y");
    assert "x" in RawHosts(three, 0, "P") * RawHosts(three, 1, "P");
    assert {"x"} * {"y"} == {} && {"y"} * {"x"} == {};
  }

  /** The third file's cluster shares no host with the others; it joins their target because they share one with each
      other, and keeps its own once the second file is gone. */
  lemma ThirdFileJoins()
    ensures var live := [FIRST, SECOND, THIRD]; var groups := Groups(live);
            && InFile(0, "P") in groups && InFile(1, "P") in groups && InFile(2, "P") in groups
            && !SharesHost(live, InFile(0, "P"), InFile(2, "P")) && !SharesHost(live, InFile(1, "P"), InFile(2, "P"))
            && DefaultTarget(live, groups, InFile(0, "P")) == DefaultTarget(live, groups, InFile(2, "P"))
    ensures var live := [FIRST, THIRD]; var groups := Groups(live);
            && InFile(0, "P") in groups && InFile(2, "P") in groups
            && DefaultTarget(live, groups, InFile(0, "P")) != DefaultTarget(live, groups, InFile(2, "P"))
  {
    ThreeGroups();
    WhoSharesHosts();
    WithSecond();
    WithoutSecond();
  }

  lemma WithSecond()
    ensures var live := [FIRST, SECOND, THIRD];
            DefaultTarget(live, Groups(live), InFile(0, "P")) == DefaultTarget(live, Groups(live), InFile(2, "P"))
  {
    var live := [FIRST, SECOND, THIRD];
    var groups := Groups(live);
    ThreeGroups();
    WhoSharesHosts();
    assert groups[0] == InFile(0, "P") && groups[1] == InFile(1, "P") && groups[2] == InFile(2, "P");
    assert PairShares(live, groups, "P", InFile(0, "P"), InFile(1, "P"));
    SameNameOneTarget(live, groups, InFile(0, "P"), InFile(2, "P"));
  }

  lemma TwoStems()
    ensures StemOf([FIRST, THIRD], 0) == "a" && StemOf([FIRST, THIRD], 2) == "c"
  {
    assert [FIRST, THIRD][..1] == [FIRST];
    assert StemOf([FIRST, THIRD], 0) == StemOf([FIRST], 0);
  }

  lemma NoOthersShare()
    ensures !OthersShare([FIRST, THIRD], [InFile(0, "P"), InFile(2, "P")], InFile(0, "P"), InFile(2, "P"))
  {
    WhoSharesHosts();
  }

  lemma WithoutSecond()
    ensures var live := [FIRST, THIRD];
            DefaultTarget(live, Groups(live), InFile(0, "P")) != DefaultTarget(live, Groups(live), InFile(2, "P"))
  {
    var live, groups := [FIRST, THIRD], [InFile(0, "P"), InFile(2, "P")];
    ThreeGroups();
    WhoSharesHosts();
    TwoStems();
    NoOthersShare();
    assert groups[0] == InFile(0, "P") && groups[1] == InFile(2, "P");
    SameNameOneTarget(live, groups, InFile(0, "P"), InFile(2, "P"));
  }

  function CleanTarget(name: string): string {
    var s := Strip(name);
    if |s| > TARGET_LENGTH then s[..TARGET_LENGTH] else s
  }

  type Mapping = map<GroupKey, string>

  function TargetOf(live: seq<File>, groups: seq<GroupKey>, mapping: Mapping, g: GroupKey): string {
    if g in mapping && mapping[g] == SKIP then SKIP
    else if g in mapping && CleanTarget(mapping[g]) != "" then CleanTarget(mapping[g])
    else DefaultTarget(live, groups, g)
  }

  // ── what the user is promised ─────────────────────────────────────────────

  /** As much of the text as fits in so many characters. */
  predicate FirstOf(t: string, text: string, n: nat) {
    t <= text && |t| == if |text| < n then |text| else n
  }

  /** Some host of this file's cluster has the key. */
  ghost predicate HasHost(live: seq<File>, src: nat, cluster: string, k: string) {
    exists f, h :: f in live && f.id == src && h in f.hosts && Strip(h.cluster) == cluster && HostKey(h.name) == k
  }

  /** Clusters of this name in two files have a host in common. */
  ghost predicate TakenForOne(live: seq<File>, groups: seq<GroupKey>, cluster: string) {
    exists a: nat, b: nat, k ::
      && a != b && InFile(a, cluster) in groups && InFile(b, cluster) in groups
      && HasHost(live, a, cluster, k) && HasHost(live, b, cluster, k)
  }

  ghost predicate UsedTwice(groups: seq<GroupKey>, src: nat, cluster: string) {
    exists b: nat :: b != src && InFile(b, cluster) in groups
  }

  ghost predicate IsStem(live: seq<File>, src: nat, stem: string) {
    exists f :: f in live && f.id == src && f.stem == stem
  }

  /** What a group is called that the user gave no name. */
  ghost predicate IsDefault(live: seq<File>, groups: seq<GroupKey>, g: GroupKey, t: string) {
    match g
    case Standalone => t == "Standalone hosts"
    case InFile(src, cluster) =>
      if UsedTwice(groups, src, cluster) && !TakenForOne(live, groups, cluster)
      then exists stem :: IsStem(live, src, stem) && t == cluster + " · " + stem
      else t == cluster
  }

  /** The target the user asked for, and the default where nothing was asked. */
  ghost predicate Honours(live: seq<File>, groups: seq<GroupKey>, mapping: Mapping, g: GroupKey, t: string) {
    if g in mapping && mapping[g] == "__skip__" then t == "__skip__"
    else if g in mapping && Strip(mapping[g]) != "" then FirstOf(t, Strip(mapping[g]), 120)
    else IsDefault(live, groups, g, t)
  }

  lemma RawHostsMeaning(live: seq<File>, src: nat, cluster: string, k: string)
    ensures k in RawHosts(live, src, cluster) <==> HasHost(live, src, cluster, k)
  {
    if f, h :| f in live && f.id == src && h in f.hosts && Strip(h.cluster) == cluster && HostKey(h.name) == k {
      var i :| 0 <= i < |live| && live[i] == f;
      var j :| 0 <= j < |f.hosts| && f.hosts[j] == h;
      assert Strip(live[i].hosts[j].cluster) == cluster;
      assert HostKey(live[i].hosts[j].name) in RawHosts(live, src, cluster);
    }
  }

  lemma TakenMeaning(live: seq<File>, groups: seq<GroupKey>, cluster: string)
    ensures NameIsSame(live, groups, cluster) <==> TakenForOne(live, groups, cluster)
  {
    if NameIsSame(live, groups, cluster) {
      var x, y := MarkedByPair(live, groups, cluster);
      var k :| k in RawHosts(live, x.src, cluster) * RawHosts(live, y.src, cluster);
      RawHostsMeaning(live, x.src, cluster, k);
      RawHostsMeaning(live, y.src, cluster, k);
    }
    if a: nat, b: nat, k :| a != b && InFile(a, cluster) in groups && InFile(b, cluster) in groups
                            && HasHost(live, a, cluster, k) && HasHost(live, b, cluster, k) {
      RawHostsMeaning(live, a, cluster, k);
      RawHostsMeaning(live, b, cluster, k);
      assert k in RawHosts(live, a, cluster) * RawHosts(live, b, cluster);
      MarksTheName(live, groups, InFile(a, cluster), InFile(b, cluster));
    }
  }

  lemma SharesNameMeaning(groups: seq<GroupKey>, src: nat, cluster: string)
    ensures SharesName(groups, InFile(src, cluster)) <==> UsedTwice(groups, src, cluster)
  {
    if i :| 0 <= i < |groups| && groups[i] != InFile(src, cluster) && groups[i].InFile?
            && groups[i].cluster == cluster {
      assert InFile(groups[i].src, cluster) in groups;
    }
    if b: nat :| b != src && InFile(b, cluster) in groups {
      var i :| 0 <= i < |groups| && groups[i] == InFile(b, cluster);
    }
  }

  lemma {:induction false} StemMeaning(live: seq<File>, src: nat)
    requires exists f :: f in live && f.id == src
    ensures IsStem(live, src, StemOf(live, src))
  {
    var front, last := live[..|live|-1], live[|live|-1];
    assert live == front + [last];
    if last.id != src {
      StemMeaning(front, src);
      var f :| f in front && f.id == src && f.stem == StemOf(front, src);
      assert f in live;
    }
  }

  ghost predicate FileGiven(live: seq<File>, g: GroupKey) {
    g.InFile? ==> exists f :: f in live && f.id == g.src
  }

  /** Every group of a file of the estate gets what Honours says. */
  lemma TargetHonours(live: seq<File>, groups: seq<GroupKey>, mapping: Mapping, g: GroupKey)
    requires FileGiven(live, g)
    ensures Honours(live, groups, mapping, g, TargetOf(live, groups, mapping, g))
  {
    if g.InFile? {
      SharesNameMeaning(groups, g.src, g.cluster);
      TakenMeaning(live, groups, g.cluster);
      StemMeaning(live, g.src);
    }
  }

  type Targets = map<GroupKey, string>

  /** The targets in use, in the order the groups first name them. */
  function TargetNames(live: seq<File>, all: seq<GroupKey>, mapping: Mapping, groups: seq<GroupKey>): seq<string> {
    if groups == [] then []
    else
      var names := TargetNames(live, all, mapping, groups[..|groups|-1]);
      var t := TargetOf(live, all, mapping, groups[|groups|-1]);
      if t in names then names else names + [t]
  }

  lemma {:induction false} TargetNamed(live: seq<File>, all: seq<GroupKey>, mapping: Mapping, groups: seq<GroupKey>,
                                       t: string)
    ensures Distinct(TargetNames(live, all, mapping, groups))
    ensures t in TargetNames(live, all, mapping, groups)
            <==> exists g :: g in groups && TargetOf(live, all, mapping, g) == t
  {
    if groups != [] {
      var front, last := groups[..|groups|-1], groups[|groups|-1];
      TargetNamed(live, all, mapping, front, t);
      assert groups == front + [last];
      if TargetOf(live, all, mapping, last) == t {
        assert last in groups;
      } else if g :| g in groups && TargetOf(live, all, mapping, g) == t {
        assert g in front;
      }
    }
  }

  method MapGroups(live: seq<File>, groups: seq<GroupKey>, mapping: Mapping)
    returns (targets: Targets, names: seq<string>)
    ensures forall g :: g in targets <==> g in groups
    ensures forall g :: g in targets && FileGiven(live, g) ==> Honours(live, groups, mapping, g, targets[g])
    ensures forall g :: g in targets ==> targets[g] == TargetOf(live, groups, mapping, g)
    ensures names == TargetNames(live, groups, mapping, groups)
    ensures Distinct(names)
    ensures forall t :: t in names <==> exists g :: g in groups && TargetOf(live, groups, mapping, g) == t
  {
    targets, names := map[], [];
    for i := 0 to |groups|
      invariant forall g :: g in targets <==> g in groups[..i]
      invariant forall g :: g in targets ==> targets[g] == TargetOf(live, groups, mapping, g)
      invariant names == TargetNames(live, groups, mapping, groups[..i])
    {
      var t := TargetOf(live, groups, mapping, groups[i]);
      targets := targets[groups[i] := t];
      assert groups[..i+1] == groups[..i] + [groups[i]] && groups[..i+1][..i] == groups[..i];
      if t !in names {
        names := names + [t];
      }
    }
    assert groups[..|groups|] == groups;
    forall t ensures t in names <==> exists g :: g in groups && TargetOf(live, groups, mapping, g) == t {
      TargetNamed(live, groups, mapping, groups, t);
    }
    TargetNamed(live, groups, mapping, groups, "");
    forall g | g in targets && FileGiven(live, g) ensures Honours(live, groups, mapping, g, targets[g]) {
      TargetHonours(live, groups, mapping, g);
    }
  }

  method CollectGroups(live: seq<File>) returns (groups: seq<GroupKey>)
    ensures groups == Groups(live)
  {
    groups := [];
    for f := 0 to |live|
      invariant groups == Groups(live[..f])
    {
      ghost var before := groups;
      for i := 0 to |live[f].hosts|
        invariant groups == AddHostGroups(before, live[f].id, live[f].hosts[..i])
      {
        assert live[f].hosts[..i+1][..i] == live[f].hosts[..i];
        groups := Add(groups, GroupOf(live[f].id, live[f].hosts[i].cluster));
      }
      assert live[f].hosts[..|live[f].hosts|] == live[f].hosts;
      before := groups;
      for i := 0 to |live[f].vms|
        invariant groups == AddVmGroups(before, live[f].id, live[f].vms[..i])
      {
        assert live[f].vms[..i+1][..i] == live[f].vms[..i];
        groups := Add(groups, GroupOf(live[f].id, live[f].vms[i].cluster));
      }
      assert live[f].vms[..|live[f].vms|] == live[f].vms;
      assert live[..f+1][..f] == live[..f];
    }
    assert live[..|live|] == live;
  }

  /** Each host and each VM of the file falls in one of the groups. */
  predicate FileGrouped(file: File, groups: seq<GroupKey>) {
    && (forall j :: 0 <= j < |file.hosts| ==> GroupOf(file.id, file.hosts[j].cluster) in groups)
    && (forall j :: 0 <= j < |file.vms| ==> GroupOf(file.id, file.vms[j].cluster) in groups)
  }

  lemma {:induction false} GroupsCover(live: seq<File>)
    ensures forall i :: 0 <= i < |live| ==> FileGrouped(live[i], Groups(live))
  {
    if live != [] {
      var n := |live| - 1;
      var f := live[n];
      GroupsCover(live[..n]);
      var g0 := Groups(live[..n]);
      var g1 := AddHostGroups(g0, f.id, f.hosts);
      HostGroupsGrow(g0, f.id, f.hosts);
      VmGroupsGrow(g1, f.id, f.vms);
      forall i | 0 <= i < |live| ensures FileGrouped(live[i], Groups(live)) {
        if i < n { assert live[..n][i] == live[i]; }
      }
    }
  }

  lemma {:induction false} HostGroupsGrow(keys: seq<GroupKey>, src: nat, hosts: seq<Host>)
    ensures forall k :: k in keys ==> k in AddHostGroups(keys, src, hosts)
    ensures forall j :: 0 <= j < |hosts| ==> GroupOf(src, hosts[j].cluster) in AddHostGroups(keys, src, hosts)
  {
    if hosts != [] {
      HostGroupsGrow(keys, src, hosts[..|hosts|-1]);
    }
  }

  lemma {:induction false} VmGroupsGrow(keys: seq<GroupKey>, src: nat, vms: seq<Vm>)
    ensures forall k :: k in keys ==> k in AddVmGroups(keys, src, vms)
    ensures forall j :: 0 <= j < |vms| ==> GroupOf(src, vms[j].cluster) in AddVmGroups(keys, src, vms)
  {
    if vms != [] {
      VmGroupsGrow(keys, src, vms[..|vms|-1]);
    }
  }
}
