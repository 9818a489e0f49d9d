/** What several files describe at once, and whose description wins. */
module Overlaps {
  import opened Text
  import opened EstateModel
  import opened Reachability
  import opened UnionFind
  import opened VmClasses

  datatype Entity = HostEntity(key: string) | VmEntity(first: VmNode)

  datatype Choice = KeepFile(src: nat) | KeepBoth

  function Position(live: seq<File>, id: nat): (i: nat)
    ensures i <= |live|
    ensures i < |live| ==> live[i].id == id
    ensures forall j :: 0 <= j < i ==> live[j].id != id
  {
    if live == [] then 0
    else if live[0].id == id then 0
    else 1 + Position(live[1..], id)
  }

  /** Upload order of the copies: by file, then by place in the file. */
  predicate Precedes(live: seq<File>, a: VmNode, b: VmNode) {
    || Position(live, a.src) < Position(live, b.src)
    || (Position(live, a.src) == Position(live, b.src) && a.idx <= b.idx)
  }

  predicate IsFile(live: seq<File>, id: nat) {
    exists i :: 0 <= i < |live| && live[i].id == id
  }

  // ── the default copy ──────────────────────────────────────────────────────

  predicate NotNewer(live: seq<File>, i: nat, j: nat)
    requires i < |live| && j < |live|
  {
    live[i].collected < live[j].collected || (live[i].collected == live[j].collected && i <= j)
  }

  /** Latest collection time wins, and upload position breaks ties. */
  function NewestUpTo(live: seq<File>, srcs: set<nat>, n: nat): (best: Option<nat>)
    requires n <= |live|
    ensures best.Some? ==> best.value < n && live[best.value].id in srcs
    ensures best.Some? ==> forall i :: 0 <= i < n && live[i].id in srcs ==> NotNewer(live, i, best.value)
    ensures best.None? ==> forall i :: 0 <= i < n ==> live[i].id !in srcs
  {
    if n == 0 then None
    else
      var before := NewestUpTo(live, srcs, n - 1);
      if live[n-1].id !in srcs then before
      else if before.Some? && live[n-1].collected < live[before.value].collected then before
      else Some(n - 1)
  }

  ghost predicate IsNewest(live: seq<File>, srcs: set<nat>, s: nat) {
    exists j :: 0 <= j < |live| && live[j].id == s && s in srcs
             && forall i :: 0 <= i < |live| && live[i].id in srcs ==> NotNewer(live, i, j)
  }

  function Newest(live: seq<File>, srcs: set<nat>): (s: nat)
    requires srcs != {} && forall s :: s in srcs ==> IsFile(live, s)
    ensures IsNewest(live, srcs, s)
  {
    var best := NewestUpTo(live, srcs, |live|);
    assert best.Some? by {
      var s :| s in srcs;
      assert IsFile(live, s);
    }
    live[best.value].id
  }

  // ── VM entities ───────────────────────────────────────────────────────────

  ghost predicate SpansFiles(live: seq<File>, nodes: map<VmNode, Vm>, n: VmNode) {
    exists m :: m in nodes && SameVm(live, n, m) && m.src != n.src
  }

  ghost predicate InClass(live: seq<File>, nodes: map<VmNode, Vm>, n: VmNode, m: VmNode) {
    m in nodes && SameVm(live, n, m)
  }

  /** One class: what its entity key and its set of files must be. */
  ghost predicate Describes(live: seq<File>, nodes: map<VmNode, Vm>, n: VmNode, first: VmNode, srcs: set<nat>) {
    && InClass(live, nodes, n, first)
    && (forall m :: InClass(live, nodes, n, m) ==> Precedes(live, first, m) && m.src in srcs)
    && (forall s :: s in srcs ==> exists m :: InClass(live, nodes, n, m) && m.src == s)
  }

  /** The done nodes lie in the list of their root, and nothing else does. */
  ghost predicate Grouped(comps: map<VmNode, set<VmNode>>, roots: map<VmNode, VmNode>, done: set<VmNode>) {
    && done <= roots.Keys
    && (forall r, n :: r in comps ==> (n in comps[r] <==> n in done && roots[n] == r))
    && (forall n :: n in done ==> roots[n] in comps)
    && (forall r :: r in comps ==> comps[r] != {})
  }

  lemma GroupedStep(comps: map<VmNode, set<VmNode>>, roots: map<VmNode, VmNode>, done: set<VmNode>, n: VmNode)
    requires Grouped(comps, roots, done) && n in roots
    ensures var r := roots[n]; Grouped(comps[r := (if r in comps then comps[r] else {}) + {n}], roots, done + {n})
  {
  }

  /** Component lists by root. */
  method Components(uf: UF<VmNode>, nodes: map<VmNode, Vm>)
    returns (comps: map<VmNode, set<VmNode>>, ghost roots: map<VmNode, VmNode>)
    requires uf.Valid() && nodes.Keys <= uf.p.Keys
    modifies uf
    ensures nodes.Keys <= roots.Keys && Represents(roots, old(uf.edges))
    ensures Grouped(comps, roots, nodes.Keys)
  {
    comps, roots := map[], uf.roots;
    var rest := nodes.Keys;
    ghost var done: set<VmNode> := {};
    while rest != {}
      invariant done + rest == nodes.Keys && uf.Valid() && uf.edges == old(uf.edges) && uf.roots == roots
      invariant uf.p.Keys == old(uf.p.Keys)
      invariant Grouped(comps, roots, done)
      decreases rest
    {
      var n :| n in rest;
      GroupedStep(comps, roots, done, n);
      var r := uf.Find(n);
      assert uf.p.Keys == old(uf.p.Keys);
      comps := comps[r := (if r in comps then comps[r] else {}) + {n}];
      rest, done := rest - {n}, done + {n};
    }
    assert done == nodes.Keys;
  }

  lemma TwoFiles(srcs: set<nat>, a: nat)
    requires a in srcs
    ensures |srcs| >= 2 <==> exists b :: b in srcs && b != a
  {
    var others := srcs - {a};
    assert |srcs| == |others| + 1;
    if |srcs| >= 2 {
      assert others != {};
      var b :| b in others;
    }
  }

  /** The component's first member in upload order: its entity key. */
  method FirstMember(live: seq<File>, members: set<VmNode>) returns (first: VmNode)
    requires members != {}
    ensures first in members && forall m :: m in members ==> Precedes(live, first, m)
  {
    first :| first in members;
    var rest := members - {first};
    ghost var done := {first};
    while rest != {}
      invariant done + rest == members && first in done
      invariant forall m :: m in done ==> Precedes(live, first, m)
      decreases rest
    {
      var m :| m in rest;
      if !Precedes(live, first, m) {
        forall d | d in done ensures Precedes(live, m, d) {
          assert Precedes(live, first, d);
        }
        first := m;
      }
      rest, done := rest - {m}, done + {m};
    }
  }

  ghost predicate Described(live: seq<File>, nodes: map<VmNode, Vm>, members: set<VmNode>, first: VmNode,
                            files: set<nat>) {
    forall n {:trigger MemberDescribed(live, nodes, n, first, files)} ::
      n in members ==> MemberDescribed(live, nodes, n, first, files)
  }

  ghost predicate MemberDescribed(live: seq<File>, nodes: map<VmNode, Vm>, n: VmNode, first: VmNode, files: set<nat>) {
    && (SpansFiles(live, nodes, n) <==> |files| >= 2)
    && Describes(live, nodes, n, first, files)
  }

  /** What the loop reads off one component. */
  lemma ComponentDescribed(live: seq<File>, nodes: map<VmNode, Vm>, members: set<VmNode>, first: VmNode,
                           files: set<nat>)
    requires first in members && files == (set m | m in members :: m.src)
    requires forall n, m :: n in members ==> (InClass(live, nodes, n, m) <==> m in members)
    requires forall m :: m in members ==> Precedes(live, first, m)
    ensures Described(live, nodes, members, first, files)
  {
    forall n {:trigger MemberDescribed(live, nodes, n, first, files)} | n in members
      ensures MemberDescribed(live, nodes, n, first, files)
    {
      assert n.src in files;
      TwoFiles(files, n.src);
      if SpansFiles(live, nodes, n) {
        var m :| m in nodes && SameVm(live, n, m) && m.src != n.src;
        assert InClass(live, nodes, n, m) && m.src in files;
      }
      if b :| b in files && b != n.src {
        var m :| m in members && m.src == b;
        assert InClass(live, nodes, n, m);
      }
    }
  }

  lemma ComponentClass(live: seq<File>, nodes: map<VmNode, Vm>, roots: map<VmNode, VmNode>,
                       members: set<VmNode>, r: VmNode, n: VmNode, m: VmNode)
    requires nodes.Keys <= roots.Keys
    requires Represents(roots, UuidEdges(Copies(live)) + NameEdges(Copies(live)))
    requires forall x :: x in members <==> x in nodes && roots[x] == r
    requires n in members
    ensures InClass(live, nodes, n, m) <==> m in members
  {
    assert n in roots;
    if m in nodes {
      assert m in roots;
      assert roots[n] == roots[m] <==> SameVm(live, n, m);
    }
  }

  predicate SameHosts(before: map<Entity, set<nat>>, after: map<Entity, set<nat>>) {
    && (forall e :: e in before ==> e in after)
    && (forall e :: e in after && e.HostEntity? ==> e in before && after[e] == before[e])
  }

  /** The entities of the components with the given roots are recorded. */
  ghost predicate Recorded(live: seq<File>, nodes: map<VmNode, Vm>, roots: map<VmNode, VmNode>, done: set<VmNode>,
                           entity: map<VmNode, VmNode>, srcs: map<Entity, set<nat>>)
    requires nodes.Keys <= roots.Keys
  {
    && (forall n :: n in entity <==> n in nodes && roots[n] in done && SpansFiles(live, nodes, n))
    && EntitiesOk(live, nodes, entity, srcs)
  }

  /** A node's entity is keyed by its class's first copy and lists its files. */
  ghost predicate EntityOf(live: seq<File>, nodes: map<VmNode, Vm>, entity: map<VmNode, VmNode>,
                           srcs: map<Entity, set<nat>>, n: VmNode) {
    && n in entity && VmEntity(entity[n]) in srcs
    && Describes(live, nodes, n, entity[n], srcs[VmEntity(entity[n])])
  }

  ghost predicate OwnKey(entity: map<VmNode, VmNode>, e: VmNode) {
    e in entity && entity[e] == e
  }

  ghost predicate EntitiesOk(live: seq<File>, nodes: map<VmNode, Vm>, entity: map<VmNode, VmNode>,
                             srcs: map<Entity, set<nat>>) {
    && (forall n {:trigger EntityOf(live, nodes, entity, srcs, n)} :: n in entity ==> EntityOf(live, nodes, entity, srcs, n))
    && (forall e {:trigger OwnKey(entity, e)} :: VmEntity(e) in srcs ==> OwnKey(entity, e))
  }

  function WithEntity(entity: map<VmNode, VmNode>, members: set<VmNode>, first: VmNode): map<VmNode, VmNode> {
    map n | n in entity.Keys + members :: if n in members then first else entity[n]
  }

  /** The members of one component, and what the loop reads off them. */
  ghost predicate IsComponent(live: seq<File>, nodes: map<VmNode, Vm>, roots: map<VmNode, VmNode>,
                              r: VmNode, members: set<VmNode>) {
    && nodes.Keys <= roots.Keys && members != {}
    && Represents(roots, UuidEdges(Copies(live)) + NameEdges(Copies(live)))
    && forall x :: x in members <==> x in nodes && roots[x] == r
  }

  lemma ComponentRecorded(live: seq<File>, nodes: map<VmNode, Vm>, roots: map<VmNode, VmNode>, done: set<VmNode>,
                          entity: map<VmNode, VmNode>, srcs: map<Entity, set<nat>>,
                          r: VmNode, members: set<VmNode>, first: VmNode, files: set<nat>)
    requires nodes.Keys <= roots.Keys && Recorded(live, nodes, roots, done, entity, srcs) && r !in done
    requires first in members && forall x :: x in members <==> x in nodes && roots[x] == r
    requires |files| >= 2 && Described(live, nodes, members, first, files)
    ensures Recorded(live, nodes, roots, done + {r}, WithEntity(entity, members, first), srcs[VmEntity(first) := files])
  {
    var entity', srcs' := WithEntity(entity, members, first), srcs[VmEntity(first) := files];
    forall n
      ensures n in entity' <==> n in nodes && roots[n] in done + {r} && SpansFiles(live, nodes, n)
    {
      assert n in members ==> MemberDescribed(live, nodes, n, first, files);
    }
    assert MemberDescribed(live, nodes, first, first, files);
    forall n {:trigger EntityOf(live, nodes, entity', srcs', n)} | n in entity'
      ensures EntityOf(live, nodes, entity', srcs', n)
    {
      if n in members {
        assert MemberDescribed(live, nodes, n, first, files);
      } else {
        assert EntityOf(live, nodes, entity, srcs, n);
        assert OwnKey(entity, entity[n]);
      }
    }
    forall e {:trigger OwnKey(entity', e)} | VmEntity(e) in srcs'
      ensures OwnKey(entity', e)
    {
      if e != first {
        assert OwnKey(entity, e);
      }
    }
  }

  lemma ComponentSkipped(live: seq<File>, nodes: map<VmNode, Vm>, roots: map<VmNode, VmNode>, done: set<VmNode>,
                         entity: map<VmNode, VmNode>, srcs: map<Entity, set<nat>>,
                         r: VmNode, members: set<VmNode>, first: VmNode, files: set<nat>)
    requires nodes.Keys <= roots.Keys && Recorded(live, nodes, roots, done, entity, srcs)
    requires forall x :: x in members <==> x in nodes && roots[x] == r
    requires |files| < 2 && Described(live, nodes, members, first, files)
    ensures Recorded(live, nodes, roots, done + {r}, entity, srcs)
  {
    forall n
      ensures n in entity <==> n in nodes && roots[n] in done + {r} && SpansFiles(live, nodes, n)
    {
      assert n in members ==> MemberDescribed(live, nodes, n, first, files);
    }
  }

  lemma ComponentFacts(live: seq<File>, nodes: map<VmNode, Vm>, roots: map<VmNode, VmNode>,
                       r: VmNode, members: set<VmNode>, first: VmNode, files: set<nat>)
    requires IsComponent(live, nodes, roots, r, members)
    requires first in members && files == (set m | m in members :: m.src)
    requires forall m :: m in members ==> Precedes(live, first, m)
    ensures Described(live, nodes, members, first, files)
  {
    forall n, m | n in members ensures InClass(live, nodes, n, m) <==> m in members {
      ComponentClass(live, nodes, roots, members, r, n, m);
    }
    ComponentDescribed(live, nodes, members, first, files);
  }

  lemma ComponentOutcome(live: seq<File>, nodes: map<VmNode, Vm>, roots: map<VmNode, VmNode>, done: set<VmNode>,
                         entity: map<VmNode, VmNode>, srcs: map<Entity, set<nat>>,
                         r: VmNode, members: set<VmNode>, first: VmNode, files: set<nat>)
    requires IsComponent(live, nodes, roots, r, members) && r !in done
    requires Recorded(live, nodes, roots, done, entity, srcs)
    requires first in members && files == (set m | m in members :: m.src)
    requires forall m :: m in members ==> Precedes(live, first, m)
    ensures |files| >= 2 ==>
              Recorded(live, nodes, roots, done + {r}, WithEntity(entity, members, first), srcs[VmEntity(first) := files])
    ensures |files| < 2 ==> Recorded(live, nodes, roots, done + {r}, entity, srcs)
  {
    ComponentFacts(live, nodes, roots, r, members, first, files);
    if |files| >= 2 {
      ComponentRecorded(live, nodes, roots, done, entity, srcs, r, members, first, files);
    } else {
      ComponentSkipped(live, nodes, roots, done, entity, srcs, r, members, first, files);
    }
  }

  lemma VmSourcesKeepHosts(srcs: map<Entity, set<nat>>, first: VmNode, files: set<nat>)
    ensures SameHosts(srcs, srcs) && SameHosts(srcs, srcs[VmEntity(first) := files])
  {
  }

  /** One turn of the loop over the components. */
  method RecordComponent(live: seq<File>, nodes: map<VmNode, Vm>, ghost roots: map<VmNode, VmNode>,
                         ghost done: set<VmNode>, entity0: map<VmNode, VmNode>, srcs0: map<Entity, set<nat>>,
                         ghost r: VmNode, members: set<VmNode>)
    returns (entity: map<VmNode, VmNode>, srcs: map<Entity, set<nat>>)
    requires IsComponent(live, nodes, roots, r, members) && r !in done
    requires Recorded(live, nodes, roots, done, entity0, srcs0)
    ensures Recorded(live, nodes, roots, done + {r}, entity, srcs)
    ensures SameHosts(srcs0, srcs)
  {
    entity, srcs := entity0, srcs0;
    var files := set m | m in members :: m.src;
    var first := FirstMember(live, members);
    ComponentOutcome(live, nodes, roots, done, entity, srcs, r, members, first, files);
    VmSourcesKeepHosts(srcs, first, files);
    if |files| >= 2 {
      entity := WithEntity(entity, members, first);
      srcs := srcs[VmEntity(first) := files];
    }
  }

  /** The entity key of every VM record whose class spans several files, and
      the files each entity has copies in. */
  method VmOverlaps(live: seq<File>, hosts: map<Entity, set<nat>>)
    returns (nodes: map<VmNode, Vm>, entity: map<VmNode, VmNode>, srcs: map<Entity, set<nat>>)
    requires DistinctIds(live) && forall e :: e in hosts ==> e.HostEntity?
    ensures SameHosts(hosts, srcs)
    ensures nodes == NodeMap(Copies(live))
    ensures forall n :: n in entity <==> n in nodes && SpansFiles(live, nodes, n)
    ensures EntitiesOk(live, nodes, entity, srcs)
  {
    var uf;
    uf, nodes := UniteVms(live);
    var comps;
    ghost var roots;
    comps, roots := Components(uf, nodes);
    entity, srcs := map[], hosts;
    var rest := comps.Keys;
    ghost var done: set<VmNode> := {};
    while rest != {}
      invariant done !! rest && done + rest == comps.Keys
      invariant Recorded(live, nodes, roots, done, entity, srcs) && SameHosts(hosts, srcs)
      decreases rest
    {
      var r :| r in rest;
      entity, srcs := RecordComponent(live, nodes, roots, done, entity, srcs, r, comps[r]);
      rest, done := rest - {r}, done + {r};
    }
  }

  lemma PrecedesAntisymmetric(live: seq<File>, a: VmNode, b: VmNode)
    requires IsFile(live, a.src) && IsFile(live, b.src)
    requires Precedes(live, a, b) && Precedes(live, b, a)
    ensures a == b
  {
    assert Position(live, a.src) == Position(live, b.src);
  }

  lemma NodesAreInFiles(live: seq<File>, n: VmNode)
    requires DistinctIds(live)
    ensures n in NodeMap(Copies(live)) <==> exists v :: HasVm(live, n, v)
    ensures n in NodeMap(Copies(live)) ==> IsFile(live, n.src) && HasVm(live, n, NodeMap(Copies(live))[n])
  {
    CopiesMeaning(live);
    NodeMapMeaning(Copies(live));
    if v :| HasVm(live, n, v) {
      assert Copy(n, v) in Copies(live);
      assert Copy(n, v).node in NodeMap(Copies(live));
    }
  }

  /** One class has one entity key, and only a class shares a key. */
  lemma ClassHasOneKey(live: seq<File>, entity: map<VmNode, VmNode>, srcs: map<Entity, set<nat>>, n: VmNode, m: VmNode)
    requires DistinctIds(live) && EntitiesOk(live, NodeMap(Copies(live)), entity, srcs)
    requires forall x :: x in entity <==> x in NodeMap(Copies(live)) && SpansFiles(live, NodeMap(Copies(live)), x)
    requires n in entity && m in NodeMap(Copies(live))
    ensures SameVm(live, n, m) <==> m in entity && entity[m] == entity[n]
  {
    var nodes := NodeMap(Copies(live));
    var edges := UuidEdges(Copies(live)) + NameEdges(Copies(live));
    assert EntityOf(live, nodes, entity, srcs, n);
    if m in entity && entity[m] == entity[n] {
      assert EntityOf(live, nodes, entity, srcs, m);
      ConnectedSym(edges, m, entity[m]);
      ConnectedTrans(edges, n, entity[n], m);
    }
    if SameVm(live, n, m) {
      ConnectedSym(edges, n, m);
      assert SpansFiles(live, nodes, m) by {
        if m.src == n.src {
          var x :| x in nodes && SameVm(live, n, x) && x.src != n.src;
          ConnectedTrans(edges, m, n, x);
        }
      }
      assert EntityOf(live, nodes, entity, srcs, m);
      ConnectedTrans(edges, n, m, entity[m]);
      ConnectedTrans(edges, m, n, entity[n]);
      assert InClass(live, nodes, n, entity[m]) && InClass(live, nodes, m, entity[n]);
      NodesAreInFiles(live, entity[n]);
      NodesAreInFiles(live, entity[m]);
      PrecedesAntisymmetric(live, entity[n], entity[m]);
    }
  }

  // ── hosts ─────────────────────────────────────────────────────────────────

  /** The non-blank host keys among a file's first n hosts. */
  function HostKeysUpTo(file: File, n: nat): set<string>
    requires n <= |file.hosts|
  {
    if n == 0 then {} else HostKeysUpTo(file, n - 1) + ({HostKey(file.hosts[n-1].name)} - {""})
  }

  function HostKeys(file: File): set<string> {
    HostKeysUpTo(file, |file.hosts|)
  }

  /** The files holding a host key. */
  function FilesWithHost(live: seq<File>, k: string): set<nat> {
    set i | 0 <= i < |live| && k in HostKeys(live[i]) :: live[i].id
  }

  /** setdefault(k, {})[file] for each key. */
  function AddFile(index: map<string, set<nat>>, keys: set<string>, id: nat): map<string, set<nat>> {
    map k | k in index.Keys + keys ::
      (if k in index then index[k] else {}) + (if k in keys then {id} else {})
  }

  function HostIndex(live: seq<File>): map<string, set<nat>> {
    if live == [] then map[]
    else AddFile(HostIndex(live[..|live|-1]), HostKeys(live[|live|-1]), live[|live|-1].id)
  }

  lemma FileStaysAmong(live: seq<File>, n: nat, k: string, s: nat)
    requires n <= |live| && s in FilesWithHost(live[..n], k)
    ensures s in FilesWithHost(live, k)
  {
    var i :| 0 <= i < n && k in HostKeys(live[..n][i]) && s == live[..n][i].id;
    assert live[i] == live[..n][i];
  }

  lemma FrontOrLast(live: seq<File>, i: nat, k: string)
    requires i < |live| && k in HostKeys(live[i])
    ensures i < |live| - 1 ==> live[i].id in FilesWithHost(live[..|live|-1], k)
  {
    if i < |live| - 1 {
      assert live[..|live|-1][i] == live[i];
    }
  }

  lemma FileAmong(live: seq<File>, k: string, s: nat)
    requires live != []
    ensures var last := live[|live|-1];
            s in FilesWithHost(live, k) <==> s in FilesWithHost(live[..|live|-1], k) || (k in HostKeys(last) && s == last.id)
  {
    if s in FilesWithHost(live[..|live|-1], k) {
      FileStaysAmong(live, |live| - 1, k, s);
    }
    if s in FilesWithHost(live, k) {
      var i :| 0 <= i < |live| && k in HostKeys(live[i]) && s == live[i].id;
      FrontOrLast(live, i, k);
    }
  }

  lemma OneMoreFile(live: seq<File>, k: string)
    requires live != []
    ensures var last := live[|live|-1];
            FilesWithHost(live, k) == FilesWithHost(live[..|live|-1], k) + (if k in HostKeys(last) then {last.id} else {})
  {
    forall s: nat ensures s in FilesWithHost(live, k) <==>
                          s in FilesWithHost(live[..|live|-1], k) || (k in HostKeys(live[|live|-1]) && s == live[|live|-1].id)
    {
      FileAmong(live, k, s);
    }
  }

  lemma {:induction false} HostIndexMeaning(live: seq<File>, k: string)
    ensures k in HostIndex(live) <==> FilesWithHost(live, k) != {}
    ensures k in HostIndex(live) ==> HostIndex(live)[k] == FilesWithHost(live, k)
  {
    if live != [] {
      HostIndexMeaning(live[..|live|-1], k);
      OneMoreFile(live, k);
    }
  }

  lemma AddFileNothing(index: map<string, set<nat>>, id: nat)
    ensures AddFile(index, {}, id) == index
  {
    forall k | k in index ensures AddFile(index, {}, id)[k] == index[k] {
      assert index[k] + {} == index[k];
    }
  }

  lemma AddFileStep(index: map<string, set<nat>>, keys: set<string>, k: string, id: nat)
    ensures var r := AddFile(index, keys, id);
            AddFile(index, keys + {k}, id) == r[k := (if k in r then r[k] else {}) + {id}]
  {
    var r := AddFile(index, keys, id);
    var one, two := AddFile(index, keys + {k}, id), r[k := (if k in r then r[k] else {}) + {id}];
    assert one.Keys == two.Keys;
    forall x | x in one ensures one[x] == two[x] {
      if x == k {
        assert one[x] == (if k in index then index[k] else {}) + {id};
      }
    }
  }

  method IndexHosts(index: map<string, set<nat>>, file: File) returns (r: map<string, set<nat>>)
    ensures r == AddFile(index, HostKeys(file), file.id)
  {
    r := index;
    AddFileNothing(index, file.id);
    for i := 0 to |file.hosts|
      invariant r == AddFile(index, HostKeysUpTo(file, i), file.id)
    {
      var k := HostKey(file.hosts[i].name);
      HostKeysStep(file, i);
      if k != "" {
        AddFileStep(index, HostKeysUpTo(file, i), k, file.id);
        r := r[k := (if k in r then r[k] else {}) + {file.id}];
      }
    }
  }

  lemma HostKeysStep(file: File, i: nat)
    requires i < |file.hosts|
    ensures var k := HostKey(file.hosts[i].name);
            HostKeysUpTo(file, i + 1) == if k != "" then HostKeysUpTo(file, i) + {k} else HostKeysUpTo(file, i)
  {
  }

  method HostOverlaps(live: seq<File>) returns (srcs: map<string, set<nat>>)
    ensures forall k :: k in srcs <==> |FilesWithHost(live, k)| >= 2
    ensures forall k :: k in srcs ==> srcs[k] == FilesWithHost(live, k)
  {
    var byKey: map<string, set<nat>> := map[];
    for f := 0 to |live|
      invariant byKey == HostIndex(live[..f])
    {
      byKey := IndexHosts(byKey, live[f]);
      assert live[..f+1][..f] == live[..f];
    }
    assert live[..|live|] == live;
    forall k
      ensures k in byKey <==> FilesWithHost(live, k) != {}
      ensures k in byKey ==> byKey[k] == FilesWithHost(live, k)
    {
      HostIndexMeaning(live, k);
    }
    srcs := map k | k in byKey && |byKey[k]| >= 2 :: byKey[k];
  }

  // ── choices ───────────────────────────────────────────────────────────────

  /** The overlap's choice: the wanted file or "both" where allowed, else the default. */
  function ChoiceFor(live: seq<File>, e: Entity, srcs: set<nat>, want: Option<Choice>): (c: Choice)
    requires srcs != {} && forall s :: s in srcs ==> IsFile(live, s)
    ensures c.KeepBoth? ==> e.VmEntity?
    ensures c.KeepFile? ==> c.src in srcs
  {
    if want == Some(KeepBoth) && e.VmEntity? then KeepBoth
    else if want.Some? && want.value.KeepFile? && want.value.src in srcs then want.value
    else KeepFile(Newest(live, srcs))
  }

  function Wanted(resolutions: map<Entity, Choice>, e: Entity): Option<Choice> {
    if e in resolutions then Some(resolutions[e]) else None
  }

  datatype Decisions = Decisions(vmEntity: map<VmNode, VmNode>, srcs: map<Entity, set<nat>>,
                                 choice: map<Entity, Choice>)

  predicate SourcesOk(live: seq<File>, srcs: map<Entity, set<nat>>) {
    forall e :: e in srcs ==> srcs[e] != {} && forall s :: s in srcs[e] ==> IsFile(live, s)
  }

  ghost predicate HostSourcesOk(live: seq<File>, srcs: map<Entity, set<nat>>) {
    && (forall k :: HostEntity(k) in srcs <==> |FilesWithHost(live, k)| >= 2)
    && (forall k :: HostEntity(k) in srcs ==> srcs[HostEntity(k)] == FilesWithHost(live, k))
  }

  /** Everything the keep step relies on. */
  ghost predicate Decided(live: seq<File>, resolutions: map<Entity, Choice>, d: Decisions) {
    var nodes := NodeMap(Copies(live));
    && SourcesOk(live, d.srcs)
    && d.choice.Keys == d.srcs.Keys
    && (forall e :: e in d.srcs ==> d.choice[e] == ChoiceFor(live, e, d.srcs[e], Wanted(resolutions, e)))
    && HostSourcesOk(live, d.srcs)
    && (forall n :: n in d.vmEntity <==> n in nodes && SpansFiles(live, nodes, n))
    && EntitiesOk(live, nodes, d.vmEntity, d.srcs)
  }

  /** A legal request stands; every other overlap goes to its newest file. */
  method ApplyChoices(live: seq<File>, srcs: map<Entity, set<nat>>, resolutions: map<Entity, Choice>)
    returns (choice: map<Entity, Choice>)
    requires SourcesOk(live, srcs)
    ensures choice.Keys == srcs.Keys
    ensures forall e :: e in srcs ==> choice[e] == ChoiceFor(live, e, srcs[e], Wanted(resolutions, e))
  {
    choice := map[];
    var rest := srcs.Keys;
    while rest != {}
      invariant rest <= srcs.Keys && choice.Keys == srcs.Keys - rest
      invariant forall e :: e in choice ==> choice[e] == ChoiceFor(live, e, srcs[e], Wanted(resolutions, e))
      decreases rest
    {
      var e :| e in rest;
      choice := choice[e := ChoiceFor(live, e, srcs[e], Wanted(resolutions, e))];
      rest := rest - {e};
    }
  }

  /** The host overlaps: one per host key that two files or more hold. */
  ghost predicate HostsListed(live: seq<File>, hosts: map<Entity, set<nat>>) {
    && (forall e :: e in hosts ==> e.HostEntity? && hosts[e] == FilesWithHost(live, e.key) && |hosts[e]| >= 2)
    && (forall k :: |FilesWithHost(live, k)| >= 2 ==> HostEntity(k) in hosts)
  }

  method HostEntities(live: seq<File>) returns (hosts: map<Entity, set<nat>>)
    ensures HostsListed(live, hosts)
  {
    var byKey := HostOverlaps(live);
    hosts := map k | k in byKey :: HostEntity(k) := byKey[k];
  }

  /** All overlaps with their choices. */
  method Decide(live: seq<File>, resolutions: map<Entity, Choice>) returns (d: Decisions)
    requires DistinctIds(live)
    ensures Decided(live, resolutions, d)
  {
    var hosts := HostEntities(live);
    var nodes, vmEntity, srcs := VmOverlaps(live, hosts);
    OverlapSources(live, nodes, vmEntity, hosts, srcs);
    var choice := ApplyChoices(live, srcs, resolutions);
    d := Decisions(vmEntity, srcs, choice);
  }

  lemma OverlapSources(live: seq<File>, nodes: map<VmNode, Vm>, entity: map<VmNode, VmNode>,
                       hosts: map<Entity, set<nat>>, srcs: map<Entity, set<nat>>)
    requires DistinctIds(live) && nodes == NodeMap(Copies(live)) && SameHosts(hosts, srcs)
    requires HostsListed(live, hosts)
    requires EntitiesOk(live, nodes, entity, srcs)
    ensures SourcesOk(live, srcs) && HostSourcesOk(live, srcs)
  {
    forall e | e in srcs
      ensures srcs[e] != {} && forall s :: s in srcs[e] ==> IsFile(live, s)
    {
      if e.VmEntity? {
        assert OwnKey(entity, e.first) && EntityOf(live, nodes, entity, srcs, e.first);
        assert InClass(live, nodes, e.first, e.first);
        forall s | s in srcs[e] ensures IsFile(live, s) {
          var m :| InClass(live, nodes, e.first, m) && m.src == s;
          NodesAreInFiles(live, m);
        }
      } else {
        forall s | s in srcs[e] ensures IsFile(live, s) {
          assert s in FilesWithHost(live, e.key);
        }
      }
    }
  }

  // ── whose request counts ──────────────────────────────────────────────────

  /** One of the files, and none of the others was collected later, or at the same time and uploaded later. */
  ghost predicate NoneNewer(live: seq<File>, srcs: set<nat>, s: nat) {
    && s in srcs
    && exists j :: 0 <= j < |live| && live[j].id == s
         && forall i :: 0 <= i < |live| && live[i].id in srcs ==>
              live[i].collected < live[j].collected || (live[i].collected == live[j].collected && i <= j)
  }

  /** A request for one of the overlap's files, or for both copies of a VM, is the choice; only without one it is the
      newest file. */
  lemma RequestCounts(live: seq<File>, resolutions: map<Entity, Choice>, d: Decisions, e: Entity)
    requires Decided(live, resolutions, d) && e in d.srcs
    ensures e in d.choice
    ensures if e in resolutions && ((resolutions[e] == KeepBoth && e.VmEntity?)
                                    || (resolutions[e].KeepFile? && resolutions[e].src in d.srcs[e]))
            then d.choice[e] == resolutions[e]
            else d.choice[e].KeepFile? && NoneNewer(live, d.srcs[e], d.choice[e].src)
  {
    var s := Newest(live, d.srcs[e]);
    assert IsNewest(live, d.srcs[e], s);
    var j :| 0 <= j < |live| && live[j].id == s && s in d.srcs[e]
             && forall i :: 0 <= i < |live| && live[i].id in d.srcs[e] ==> NotNewer(live, i, j);
    forall i | 0 <= i < |live| && live[i].id in d.srcs[e]
      ensures live[i].collected < live[j].collected || (live[i].collected == live[j].collected && i <= j)
    {
      assert NotNewer(live, i, j);
    }
    assert NoneNewer(live, d.srcs[e], s);
  }
}
