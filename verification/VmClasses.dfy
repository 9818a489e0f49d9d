/** Which VM records of several files are copies of one VM: the edges the merge
    draws on uuid and on name, and the union-find over them. */
module VmClasses {
  import opened EstateModel
  import opened Reachability
  import opened UnionFind

  type Index = map<string, seq<VmNode>>
  type Edges = set<(VmNode, VmNode)>

  /** setdefault(key, []).append(node) for each key. */
  function Register(index: Index, keys: set<string>, node: VmNode): Index {
    map k | k in index.Keys + keys ::
      (if k in index then index[k] else []) + (if k in keys then [node] else [])
  }

  /** Every key's holders, in upload order. */
  function IndexOf(copies: seq<Copy>, keysOf: Vm -> set<string>): Index {
    if copies == [] then map[]
    else
      var last := copies[|copies|-1];
      Register(IndexOf(copies[..|copies|-1], keysOf), keysOf(last.vm), last.node)
  }

  ghost predicate Holds(copies: seq<Copy>, keysOf: Vm -> set<string>, k: string, node: VmNode) {
    exists c :: c in copies && c.node == node && k in keysOf(c.vm)
  }

  lemma {:induction false} IndexMeaning(copies: seq<Copy>, keysOf: Vm -> set<string>, k: string, node: VmNode)
    ensures (k in IndexOf(copies, keysOf) && node in IndexOf(copies, keysOf)[k]) <==> Holds(copies, keysOf, k, node)
    ensures k in IndexOf(copies, keysOf) ==> IndexOf(copies, keysOf)[k] != []
  {
    if copies != [] {
      IndexMeaning(copies[..|copies|-1], keysOf, k, node);
      assert copies == copies[..|copies|-1] + [copies[|copies|-1]];
    }
  }

  /** The first holder of a uuid is tied to its holders in other files. */
  function Star(group: seq<VmNode>, n: nat): Edges
    requires 1 <= n <= |group|
  {
    if n == 1 then {}
    else Star(group, n - 1) + (if group[n-1].src != group[0].src then {(group[0], group[n-1])} else {})
  }

  predicate NameLinks(nodes: map<VmNode, Vm>, a: VmNode, b: VmNode) {
    && a in nodes && b in nodes
    && a.src < b.src
    && !(Uuids(nodes[a]) != {} && Uuids(nodes[b]) != {})
  }

  function NamesakesOf(nodes: map<VmNode, Vm>, a: VmNode, group: seq<VmNode>): Edges {
    if group == [] then {}
    else
      var b := group[|group|-1];
      NamesakesOf(nodes, a, group[..|group|-1]) + (if NameLinks(nodes, a, b) then {(a, b)} else {})
  }

  /** Namesakes in two files are tied when one side has no uuid. */
  function Namesakes(nodes: map<VmNode, Vm>, group: seq<VmNode>, n: nat): Edges
    requires n <= |group|
  {
    if n == 0 then {}
    else Namesakes(nodes, group, n - 1) + NamesakesOf(nodes, group[n-1], group)
  }

  function StarsOf(index: Index, keys: set<string>): Edges
    requires keys <= index.Keys && forall k :: k in index ==> index[k] != []
  {
    set k, e | k in keys && e in Star(index[k], |index[k]|) :: e
  }

  function NamesakesIn(nodes: map<VmNode, Vm>, index: Index, keys: set<string>): Edges
    requires keys <= index.Keys
  {
    set k, e | k in keys && e in Namesakes(nodes, index[k], |index[k]|) :: e
  }

  function UuidEdges(copies: seq<Copy>): Edges {
    var index := IndexOf(copies, Uuids);
    IndexFilled(copies, Uuids);
    StarsOf(index, index.Keys)
  }

  function NameEdges(copies: seq<Copy>): Edges {
    var index := IndexOf(copies, NameKeys);
    NamesakesIn(NodeMap(copies), index, index.Keys)
  }

  lemma IndexFilled(copies: seq<Copy>, keysOf: Vm -> set<string>)
    ensures forall k :: k in IndexOf(copies, keysOf) ==> IndexOf(copies, keysOf)[k] != []
  {
    forall k | k in IndexOf(copies, keysOf)
      ensures IndexOf(copies, keysOf)[k] != []
    {
      IndexMeaning(copies, keysOf, k, VmNode(0, 0));
    }
  }

  /** Two records are the same VM exactly when this closure joins them. */
  ghost predicate SameVm(live: seq<File>, a: VmNode, b: VmNode) {
    Connected(UuidEdges(Copies(live)) + NameEdges(Copies(live)), a, b)
  }

  // ── the loops ─────────────────────────────────────────────────────────────

  lemma RegisterNothing(index: Index, node: VmNode)
    ensures Register(index, {}, node) == index
  {
    forall k | k in index ensures Register(index, {}, node)[k] == index[k] {
      assert index[k] + [] == index[k];
    }
  }

  method RegisterKeys(index: Index, keys: set<string>, node: VmNode) returns (r: Index)
    ensures r == Register(index, keys, node)
  {
    r := index;
    var rest := keys;
    ghost var done: set<string> := {};
    RegisterNothing(index, node);
    while rest != {}
      invariant done !! rest && done + rest == keys
      invariant r == Register(index, done, node)
      decreases rest
    {
      var k :| k in rest;
      r := r[k := (if k in r then r[k] else []) + [node]];
      rest, done := rest - {k}, done + {k};
    }
  }

  method UniteStar(uf: UF<VmNode>, group: seq<VmNode>)
    requires uf.Valid() && group != []
    modifies uf
    ensures uf.Valid() && uf.edges == old(uf.edges) + Star(group, |group|)
    ensures old(uf.p.Keys) <= uf.p.Keys
  {
    for j := 1 to |group|
      invariant uf.Valid() && uf.edges == old(uf.edges) + Star(group, j)
      invariant old(uf.p.Keys) <= uf.p.Keys
    {
      if group[j].src != group[0].src {
        uf.Union(group[0], group[j]);
      }
    }
  }

  method UniteNamesakesOf(uf: UF<VmNode>, a: VmNode, group: seq<VmNode>, nodes: map<VmNode, Vm>)
    requires uf.Valid() && a in nodes && forall i :: 0 <= i < |group| ==> group[i] in nodes
    modifies uf
    ensures uf.Valid() && uf.edges == old(uf.edges) + NamesakesOf(nodes, a, group)
    ensures old(uf.p.Keys) <= uf.p.Keys
  {
    for j := 0 to |group|
      invariant uf.Valid() && uf.edges == old(uf.edges) + NamesakesOf(nodes, a, group[..j])
      invariant old(uf.p.Keys) <= uf.p.Keys
    {
      assert group[..j+1][..j] == group[..j];
      var b := group[j];
      if a.src < b.src && !(Uuids(nodes[a]) != {} && Uuids(nodes[b]) != {}) {
        uf.Union(a, b);
      }
    }
    assert group[..|group|] == group;
  }

  method UniteNamesakes(uf: UF<VmNode>, group: seq<VmNode>, nodes: map<VmNode, Vm>)
    requires uf.Valid() && forall i :: 0 <= i < |group| ==> group[i] in nodes
    modifies uf
    ensures uf.Valid() && uf.edges == old(uf.edges) + Namesakes(nodes, group, |group|)
    ensures old(uf.p.Keys) <= uf.p.Keys
  {
    for i := 0 to |group|
      invariant uf.Valid() && uf.edges == old(uf.edges) + Namesakes(nodes, group, i)
      invariant old(uf.p.Keys) <= uf.p.Keys
    {
      UniteNamesakesOf(uf, group[i], group, nodes);
    }
  }

  /** The dictionaries of the scan: the records, and who holds each uuid and name. */
  datatype Dicts = Dicts(nodes: map<VmNode, Vm>, byUuid: Index, byName: Index)

  function DictsOf(copies: seq<Copy>): Dicts {
    Dicts(NodeMap(copies), IndexOf(copies, Uuids), IndexOf(copies, NameKeys))
  }

  method IndexVm(d: Dicts, ghost copies: seq<Copy>, node: VmNode, vm: Vm) returns (r: Dicts)
    requires d == DictsOf(copies)
    ensures r == DictsOf(copies + [Copy(node, vm)])
    ensures r.nodes.Keys == d.nodes.Keys + {node}
  {
    assert (copies + [Copy(node, vm)])[..|copies|] == copies;
    var byUuid := RegisterKeys(d.byUuid, Uuids(vm), node);
    var byName := RegisterKeys(d.byName, NameKeys(vm), node);
    r := Dicts(d.nodes[node := vm], byUuid, byName);
  }

  /** One file's VM list into the dictionaries. */
  lemma CopiesGrow(file: File, i: nat)
    requires i < |file.vms|
    ensures CopiesUpTo(file, i + 1) == CopiesUpTo(file, i) + [Copy(VmNode(file.id, i), file.vms[i])]
  {
  }

  method IndexFile(file: File, uf: UF<VmNode>, ghost done: seq<Copy>, d: Dicts) returns (r: Dicts)
    requires uf.Valid() && d == DictsOf(done) && d.nodes.Keys <= uf.p.Keys
    modifies uf
    ensures uf.Valid() && uf.edges == old(uf.edges)
    ensures r == DictsOf(done + CopiesUpTo(file, |file.vms|)) && r.nodes.Keys <= uf.p.Keys
  {
    r := d;
    ghost var so := done;
    for i := 0 to |file.vms|
      invariant so == done + CopiesUpTo(file, i) && r == DictsOf(so)
      invariant uf.Valid() && uf.edges == old(uf.edges) && r.nodes.Keys <= uf.p.Keys
    {
      var node := VmNode(file.id, i);
      CopiesGrow(file, i);
      assert done + CopiesUpTo(file, i + 1) == so + [Copy(node, file.vms[i])];
      r := IndexVm(r, so, node, file.vms[i]);
      so := so + [Copy(node, file.vms[i])];
      var _ := uf.Find(node);
    }
  }

  /** Every node registered, and the dictionaries filled. */
  method IndexVms(live: seq<File>, uf: UF<VmNode>) returns (d: Dicts)
    requires uf.Valid()
    modifies uf
    ensures uf.Valid() && uf.edges == old(uf.edges)
    ensures d == DictsOf(Copies(live)) && d.nodes.Keys <= uf.p.Keys
  {
    d := Dicts(map[], map[], map[]);
    for f := 0 to |live|
      invariant uf.Valid() && uf.edges == old(uf.edges) && d.nodes.Keys <= uf.p.Keys
      invariant d == DictsOf(Copies(live[..f]))
    {
      d := IndexFile(live[f], uf, Copies(live[..f]), d);
      assert live[..f+1][..f] == live[..f];
    }
    assert live[..|live|] == live;
  }

  method UniteByUuid(uf: UF<VmNode>, index: Index)
    requires uf.Valid() && forall k :: k in index ==> index[k] != []
    modifies uf
    ensures uf.Valid() && uf.edges == old(uf.edges) + StarsOf(index, index.Keys)
    ensures old(uf.p.Keys) <= uf.p.Keys
  {
    var rest := index.Keys;
    ghost var done: set<string> := {};
    while rest != {}
      invariant done + rest == index.Keys && uf.Valid() && old(uf.p.Keys) <= uf.p.Keys
      invariant uf.edges == old(uf.edges) + StarsOf(index, done)
      decreases rest
    {
      var k :| k in rest;
      UniteStar(uf, index[k]);
      assert StarsOf(index, done + {k}) == StarsOf(index, done) + Star(index[k], |index[k]|);
      rest, done := rest - {k}, done + {k};
    }
  }

  method UniteByName(uf: UF<VmNode>, index: Index, nodes: map<VmNode, Vm>)
    requires uf.Valid() && forall k, i :: k in index && 0 <= i < |index[k]| ==> index[k][i] in nodes
    modifies uf
    ensures uf.Valid() && uf.edges == old(uf.edges) + NamesakesIn(nodes, index, index.Keys)
    ensures old(uf.p.Keys) <= uf.p.Keys
  {
    var rest := index.Keys;
    ghost var done: set<string> := {};
    while rest != {}
      invariant done + rest == index.Keys && uf.Valid() && old(uf.p.Keys) <= uf.p.Keys
      invariant uf.edges == old(uf.edges) + NamesakesIn(nodes, index, done)
      decreases rest
    {
      var k :| k in rest;
      UniteNamesakes(uf, index[k], nodes);
      assert NamesakesIn(nodes, index, done + {k})
          == NamesakesIn(nodes, index, done) + Namesakes(nodes, index[k], |index[k]|);
      rest, done := rest - {k}, done + {k};
    }
  }

  /** Both union passes: the classes are the closure of the edges drawn. */
  method UniteVms(live: seq<File>) returns (uf: UF<VmNode>, nodes: map<VmNode, Vm>)
    requires DistinctIds(live)
    ensures fresh(uf) && uf.Valid()
    ensures uf.edges == UuidEdges(Copies(live)) + NameEdges(Copies(live))
    ensures nodes == NodeMap(Copies(live)) && nodes.Keys <= uf.p.Keys
  {
    uf := new UF<VmNode>();
    var d := IndexVms(live, uf);
    nodes := d.nodes;
    IndexFilled(Copies(live), Uuids);
    NamesIndexed(live, d);
    UniteByUuid(uf, d.byUuid);
    UniteByName(uf, d.byName, nodes);
  }

  lemma NamesIndexed(live: seq<File>, d: Dicts)
    requires DistinctIds(live) && d == DictsOf(Copies(live))
    ensures forall k, i :: k in d.byName && 0 <= i < |d.byName[k]| ==> d.byName[k][i] in d.nodes
  {
    CopiesMeaning(live);
    NodeMapMeaning(Copies(live));
    forall k, i | k in d.byName && 0 <= i < |d.byName[k]|
      ensures d.byName[k][i] in d.nodes
    {
      IndexMeaning(Copies(live), NameKeys, k, d.byName[k][i]);
    }
  }
}
