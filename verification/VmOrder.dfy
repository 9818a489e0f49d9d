/** What the drawn edges mean, and when the upload order cannot matter. */
module VmOrder {
  import opened Text
  import opened Sequences
  import opened EstateModel
  import opened Reachability
  import opened VmClasses

  predicate FirstAt(copies: seq<Copy>, u: string, i: nat) {
    && i < |copies| && u in Uuids(copies[i].vm)
    && forall j :: 0 <= j < i ==> u !in Uuids(copies[j].vm)
  }

  ghost predicate FirstHolder(copies: seq<Copy>, u: string, node: VmNode) {
    exists i: nat :: FirstAt(copies, u, i) && copies[i].node == node
  }

  lemma {:induction false} FirstIndexed(copies: seq<Copy>, u: string, i: nat)
    requires FirstAt(copies, u, i)
    ensures u in IndexOf(copies, Uuids) && IndexOf(copies, Uuids)[u] != []
    ensures IndexOf(copies, Uuids)[u][0] == copies[i].node
  {
    var n := |copies| - 1;
    HeadRegistered(IndexOf(copies[..n], Uuids), Uuids(copies[n].vm), copies[n].node, u);
    if i < n {
      assert FirstAt(copies[..n], u, i);
      FirstIndexed(copies[..n], u, i);
    } else {
      NotIndexed(copies[..n], u);
    }
  }

  lemma HeadRegistered(index: Index, keys: set<string>, node: VmNode, u: string)
    ensures var r := Register(index, keys, node);
            && (u in index && index[u] != [] ==> u in r && r[u] != [] && r[u][0] == index[u][0])
            && (u !in index && u in keys ==> u in r && r[u] == [node])
  {
  }

  lemma {:induction false} NotIndexed(copies: seq<Copy>, u: string)
    requires forall j :: 0 <= j < |copies| ==> u !in Uuids(copies[j].vm)
    ensures u !in IndexOf(copies, Uuids)
  {
    if copies != [] {
      NotIndexed(copies[..|copies|-1], u);
    }
  }

  lemma {:induction false} FirstExists(copies: seq<Copy>, u: string) returns (i: nat)
    requires exists j :: 0 <= j < |copies| && u in Uuids(copies[j].vm)
    ensures FirstAt(copies, u, i)
  {
    i := 0;
    while u !in Uuids(copies[i].vm)
      invariant i < |copies| && forall j :: 0 <= j < i ==> u !in Uuids(copies[j].vm)
      decreases |copies| - i
    {
      i := i + 1;
    }
  }

  /** The first entry under a uuid is the uuid's first holder. */
  lemma FirstInIndex(copies: seq<Copy>, u: string)
    requires u in IndexOf(copies, Uuids)
    ensures IndexOf(copies, Uuids)[u] != []
    ensures forall node :: FirstHolder(copies, u, node) <==> node == IndexOf(copies, Uuids)[u][0]
  {
    if forall j :: 0 <= j < |copies| ==> u !in Uuids(copies[j].vm) {
      NotIndexed(copies, u);
    }
    var i := FirstExists(copies, u);
    FirstIndexed(copies, u, i);
    forall node | FirstHolder(copies, u, node)
      ensures node == IndexOf(copies, Uuids)[u][0]
    {
      var k: nat :| FirstAt(copies, u, k) && copies[k].node == node;
      FirstIndexed(copies, u, k);
    }
  }

  lemma {:induction false} StarMeaning(group: seq<VmNode>, n: nat, e: (VmNode, VmNode))
    requires 1 <= n <= |group|
    ensures e in Star(group, n) <==> e.0 == group[0] && e.1 in group[..n] && e.1.src != e.0.src
  {
    if n > 1 {
      StarMeaning(group, n - 1, e);
      assert group[..n] == group[..n-1] + [group[n-1]];
    }
  }

  lemma {:induction false} NamesakesOfMeaning(nodes: map<VmNode, Vm>, a: VmNode, group: seq<VmNode>,
                                              e: (VmNode, VmNode))
    ensures e in NamesakesOf(nodes, a, group) <==> e.0 == a && e.1 in group && NameLinks(nodes, a, e.1)
  {
    if group != [] {
      NamesakesOfMeaning(nodes, a, group[..|group|-1], e);
      assert group == group[..|group|-1] + [group[|group|-1]];
    }
  }

  lemma {:induction false} NamesakesMeaning(nodes: map<VmNode, Vm>, group: seq<VmNode>, n: nat, e: (VmNode, VmNode))
    requires n <= |group|
    ensures e in Namesakes(nodes, group, n) <==> e.0 in group[..n] && e.1 in group && NameLinks(nodes, e.0, e.1)
  {
    if n > 0 {
      NamesakesMeaning(nodes, group, n - 1, e);
      NamesakesOfMeaning(nodes, group[n-1], group, e);
      assert group[..n] == group[..n-1] + [group[n-1]];
    }
  }

  ghost predicate SharesUuidWithFirst(copies: seq<Copy>, u: string, a: VmNode, b: VmNode) {
    FirstHolder(copies, u, a) && Holds(copies, Uuids, u, b) && a.src != b.src
  }

  /** A uuid edge runs from the first holder of a uuid to a holder in another file. */
  lemma UuidEdgeMeaning(copies: seq<Copy>, a: VmNode, b: VmNode)
    ensures (a, b) in UuidEdges(copies) <==> exists u :: SharesUuidWithFirst(copies, u, a, b)
  {
    var index := IndexOf(copies, Uuids);
    IndexFilled(copies, Uuids);
    if (a, b) in UuidEdges(copies) {
      var u :| u in index && (a, b) in Star(index[u], |index[u]|);
      StarMeaning(index[u], |index[u]|, (a, b));
      FirstInIndex(copies, u);
      IndexMeaning(copies, Uuids, u, b);
      assert index[u][..|index[u]|] == index[u];
      assert SharesUuidWithFirst(copies, u, a, b);
    }
    if u :| SharesUuidWithFirst(copies, u, a, b) {
      IndexMeaning(copies, Uuids, u, b);
      FirstInIndex(copies, u);
      StarMeaning(index[u], |index[u]|, (a, b));
      assert index[u][..|index[u]|] == index[u];
    }
  }

  ghost predicate NamesakesApart(live: seq<File>, a: VmNode, b: VmNode, v: Vm, w: Vm) {
    && HasVm(live, a, v) && HasVm(live, b, w) && a.src < b.src
    && VmName(v) == VmName(w) != "" && (Uuids(v) == {} || Uuids(w) == {})
  }

  /** A name edge ties two namesakes of different files, one of them without a uuid. */
  lemma NameEdgeMeaning(live: seq<File>, a: VmNode, b: VmNode)
    requires DistinctIds(live)
    ensures (a, b) in NameEdges(Copies(live)) <==> exists v, w :: NamesakesApart(live, a, b, v, w)
  {
    if (a, b) in NameEdges(Copies(live)) {
      NameEdgeSound(live, a, b);
    }
    if v, w :| NamesakesApart(live, a, b, v, w) {
      NameEdgeDrawn(live, a, b, v, w);
    }
  }

  lemma NameEdgeSound(live: seq<File>, a: VmNode, b: VmNode)
    requires DistinctIds(live) && (a, b) in NameEdges(Copies(live))
    ensures exists v, w :: NamesakesApart(live, a, b, v, w)
  {
    var copies := Copies(live);
    var index, nodes := IndexOf(copies, NameKeys), NodeMap(copies);
    var k :| k in index && (a, b) in Namesakes(nodes, index[k], |index[k]|);
    NamesakesMeaning(nodes, index[k], |index[k]|, (a, b));
    assert index[k][..|index[k]|] == index[k];
    var v := HolderRecord(live, k, a);
    var w := HolderRecord(live, k, b);
    assert NamesakesApart(live, a, b, v, w);
  }

  lemma HolderRecord(live: seq<File>, k: string, node: VmNode) returns (vm: Vm)
    requires DistinctIds(live)
    requires var index := IndexOf(Copies(live), NameKeys); k in index && node in index[k]
    ensures HasVm(live, node, vm) && k == VmName(vm) != ""
    ensures node in NodeMap(Copies(live)) && NodeMap(Copies(live))[node] == vm
  {
    IndexMeaning(Copies(live), NameKeys, k, node);
    var c :| c in Copies(live) && c.node == node && k in NameKeys(c.vm);
    CopiesMeaning(live);
    NodeMapMeaning(Copies(live));
    vm := c.vm;
  }

  lemma NameEdgeDrawn(live: seq<File>, a: VmNode, b: VmNode, v: Vm, w: Vm)
    requires DistinctIds(live) && NamesakesApart(live, a, b, v, w)
    ensures (a, b) in NameEdges(Copies(live))
  {
    var copies := Copies(live);
    var index, k := IndexOf(copies, NameKeys), VmName(v);
    RecordIndexed(live, a, v);
    RecordIndexed(live, b, w);
    NamesakesMeaning(NodeMap(copies), index[k], |index[k]|, (a, b));
    assert index[k][..|index[k]|] == index[k];
  }

  lemma RecordIndexed(live: seq<File>, node: VmNode, vm: Vm)
    requires DistinctIds(live) && HasVm(live, node, vm) && VmName(vm) != ""
    ensures var index := IndexOf(Copies(live), NameKeys); VmName(vm) in index && node in index[VmName(vm)]
    ensures node in NodeMap(Copies(live)) && NodeMap(Copies(live))[node] == vm
  {
    CopiesMeaning(live);
    NodeMapMeaning(Copies(live));
    assert Copy(node, vm) in Copies(live);
    assert VmName(vm) in NameKeys(vm);
    IndexMeaning(Copies(live), NameKeys, VmName(vm), node);
  }

  // ── upload order ──────────────────────────────────────────────────────────

  ghost predicate HoldsUuid(live: seq<File>, u: string, node: VmNode) {
    exists v :: HasVm(live, node, v) && u in Uuids(v)
  }

  /** A uuid held twice inside one file is held by no other file. */
  ghost predicate RepeatsStayInFile(live: seq<File>) {
    forall u, a, b, c ::
      (HoldsUuid(live, u, a) && HoldsUuid(live, u, b) && HoldsUuid(live, u, c) && a != b && a.src == b.src)
      ==> c.src == a.src
  }

  ghost predicate SharedUuid(live: seq<File>, u: string) {
    exists a, b :: HoldsUuid(live, u, a) && HoldsUuid(live, u, b) && a.src != b.src
  }

  /** All holders of a uuid that two files hold are one VM. */
  ghost predicate HoldersJoined(live: seq<File>) {
    forall u, a, b :: SharedUuid(live, u) && HoldsUuid(live, u, a) && HoldsUuid(live, u, b) ==> SameVm(live, a, b)
  }

  lemma HoldsMeaning(live: seq<File>, u: string, node: VmNode)
    requires DistinctIds(live)
    ensures Holds(Copies(live), Uuids, u, node) <==> HoldsUuid(live, u, node)
  {
    CopiesMeaning(live);
    if Holds(Copies(live), Uuids, u, node) {
      var c :| c in Copies(live) && c.node == node && u in Uuids(c.vm);
      assert HasVm(live, node, c.vm);
    }
    if v :| HasVm(live, node, v) && u in Uuids(v) {
      assert Copy(node, v) in Copies(live);
    }
  }

  lemma SameFilesSameVms(one: seq<File>, two: seq<File>, node: VmNode, vm: Vm)
    requires forall f :: f in one ==> f in two
    ensures HasVm(one, node, vm) ==> HasVm(two, node, vm)
  {
    if HasVm(one, node, vm) {
      var i :| 0 <= i < |one| && one[i].id == node.src && node.idx < |one[i].vms| && one[i].vms[node.idx] == vm;
      assert one[i] in two;
      var j :| 0 <= j < |two| && two[j] == one[i];
    }
  }

  lemma SameHolders(one: seq<File>, two: seq<File>, u: string, node: VmNode)
    requires DistinctIds(one) && DistinctIds(two) && forall f :: f in one <==> f in two
    ensures Holds(Copies(one), Uuids, u, node) <==> HoldsUuid(two, u, node)
    ensures Holds(Copies(two), Uuids, u, node) <==> HoldsUuid(two, u, node)
    ensures HoldsUuid(one, u, node) <==> HoldsUuid(two, u, node)
  {
    HoldsMeaning(one, u, node);
    HoldsMeaning(two, u, node);
    forall v ensures HasVm(one, node, v) <==> HasVm(two, node, v) {
      SameFilesSameVms(one, two, node, v);
      SameFilesSameVms(two, one, node, v);
    }
  }

  /** Every holder of a uuid is joined to its first holder. */
  lemma HolderJoinsFirst(live: seq<File>, u: string, node: VmNode, h: VmNode)
    requires DistinctIds(live) && RepeatsStayInFile(live)
    requires HoldsUuid(live, u, node) && FirstHolder(Copies(live), u, h)
    requires exists other :: HoldsUuid(live, u, other) && other.src != h.src
    ensures Connected(UuidEdges(Copies(live)) + NameEdges(Copies(live)), h, node)
  {
    var edges := UuidEdges(Copies(live)) + NameEdges(Copies(live));
    if node == h {
      ConnectedRefl(edges, h);
    } else {
      HoldsMeaning(live, u, node);
      FirstHolds(Copies(live), u, h);
      HoldsMeaning(live, u, h);
      assert SharesUuidWithFirst(Copies(live), u, h, node);
      UuidEdgeMeaning(Copies(live), h, node);
      ConnectedEdge(edges, h, node);
    }
  }

  /** Without such repeats every order joins all holders of a shared uuid. */
  lemma RepeatsAreJoined(live: seq<File>)
    requires DistinctIds(live) && RepeatsStayInFile(live)
    ensures HoldersJoined(live)
  {
    var edges := UuidEdges(Copies(live)) + NameEdges(Copies(live));
    forall u, a, b | SharedUuid(live, u) && HoldsUuid(live, u, a) && HoldsUuid(live, u, b) ensures SameVm(live, a, b) {
      var h := HasFirstHolder(live, u, a);
      HolderJoinsFirst(live, u, a, h);
      HolderJoinsFirst(live, u, b, h);
      ConnectedSym(edges, h, a);
      ConnectedTrans(edges, a, h, b);
    }
  }

  lemma EdgesCovered(one: seq<File>, two: seq<File>, e: (VmNode, VmNode))
    requires DistinctIds(one) && DistinctIds(two) && forall f :: f in one <==> f in two
    requires HoldersJoined(two)
    requires e in UuidEdges(Copies(one)) + NameEdges(Copies(one))
    ensures Connected(UuidEdges(Copies(two)) + NameEdges(Copies(two)), e.0, e.1)
  {
    var a, b := e.0, e.1;
    if e in NameEdges(Copies(one)) {
      NameEdgeMeaning(one, a, b);
      var v, w :| NamesakesApart(one, a, b, v, w);
      SameFilesSameVms(one, two, a, v);
      SameFilesSameVms(one, two, b, w);
      NameEdgeDrawn(two, a, b, v, w);
      ConnectedEdge(UuidEdges(Copies(two)) + NameEdges(Copies(two)), a, b);
    } else {
      UuidEdgeMeaning(Copies(one), a, b);
      var u :| SharesUuidWithFirst(Copies(one), u, a, b);
      FirstHolds(Copies(one), u, a);
      SameHolders(one, two, u, a);
      SameHolders(one, two, u, b);
      assert SharedUuid(two, u) && SameVm(two, a, b);
    }
  }

  lemma FirstHolds(copies: seq<Copy>, u: string, node: VmNode)
    requires FirstHolder(copies, u, node)
    ensures Holds(copies, Uuids, u, node)
  {
    var i: nat :| FirstAt(copies, u, i) && copies[i].node == node;
    assert copies[i] in copies;
  }

  lemma JoinedOrdersAgree(one: seq<File>, two: seq<File>, a: VmNode, b: VmNode)
    requires DistinctIds(one) && DistinctIds(two) && forall f :: f in one <==> f in two
    requires HoldersJoined(one) && HoldersJoined(two)
    ensures SameVm(one, a, b) <==> SameVm(two, a, b)
  {
    var e1 := UuidEdges(Copies(one)) + NameEdges(Copies(one));
    var e2 := UuidEdges(Copies(two)) + NameEdges(Copies(two));
    forall e | e in e1 ensures Connected(e2, e.0, e.1) { EdgesCovered(one, two, e); }
    forall e | e in e2 ensures Connected(e1, e.0, e.1) { EdgesCovered(two, one, e); }
    if Connected(e1, a, b) { ConnectedWithin(e1, e2, a, b); }
    if Connected(e2, a, b) { ConnectedWithin(e2, e1, a, b); }
  }

  /** The same files uploaded in any order give the same VM classes. */
  lemma OrderIndependent(one: seq<File>, two: seq<File>, a: VmNode, b: VmNode)
    requires DistinctIds(one) && DistinctIds(two) && forall f :: f in one <==> f in two
    requires RepeatsStayInFile(one)
    ensures SameVm(one, a, b) <==> SameVm(two, a, b)
  {
    forall u, n ensures HoldsUuid(one, u, n) <==> HoldsUuid(two, u, n) { SameHolders(one, two, u, n); }
    assert RepeatsStayInFile(two);
    RepeatsAreJoined(one);
    RepeatsAreJoined(two);
    JoinedOrdersAgree(one, two, a, b);
  }

  // ── the exact condition ───────────────────────────────────────────────────

  /** The same files in some order. */
  ghost predicate Reorders(one: seq<File>, two: seq<File>) {
    DistinctIds(two) && forall f :: f in one <==> f in two
  }

  ghost predicate SameClasses(one: seq<File>, two: seq<File>) {
    forall a, b :: SameVm(one, a, b) <==> SameVm(two, a, b)
  }

  /** Uuids that one VM carries together are carried together by every VM. */
  ghost predicate UuidsTogether(live: seq<File>) {
    forall u, w, n, m :: HoldsUuid(live, u, n) && HoldsUuid(live, w, n) && HoldsUuid(live, u, m) ==>
      HoldsUuid(live, w, m)
  }

  /** The VM's uuid repeats in its file and is held by another file. */
  ghost predicate Repeats(live: seq<File>, u: string, n: VmNode) {
    exists m, c :: HoldsUuid(live, u, n) && HoldsUuid(live, u, m) && HoldsUuid(live, u, c)
                   && m != n && m.src == n.src && c.src != n.src
  }

  /** No name edge touches such a VM. */
  ghost predicate NamesSpareRepeats(live: seq<File>) {
    forall e, u :: e in NameEdges(Copies(live)) ==> !Repeats(live, u, e.0) && !Repeats(live, u, e.1)
  }

  function MovedFirst(live: seq<File>, i: nat): seq<File>
    requires i < |live|
  {
    [live[i]] + live[..i] + live[i+1..]
  }

  lemma MovedFirstReorders(live: seq<File>, i: nat)
    requires i < |live| && DistinctIds(live)
    ensures Reorders(live, MovedFirst(live, i)) && MovedFirst(live, i)[0] == live[i]
  {
    assert live == live[..i] + [live[i]] + live[i+1..];
  }

  lemma {:induction false} CopiesStart(live: seq<File>) returns (rest: seq<Copy>)
    requires live != []
    ensures Copies(live) == CopiesUpTo(live[0], |live[0].vms|) + rest
  {
    var front, last := live[..|live|-1], live[|live|-1];
    var head, tail := CopiesUpTo(live[0], |live[0].vms|), CopiesUpTo(last, |last.vms|);
    CopiesPush(live);
    if front == [] {
      rest := [];
    } else {
      var mid := CopiesStart(front);
      rest := mid + tail;
      Regroup(head, mid, tail);
    }
  }

  lemma CopiesPush(live: seq<File>)
    requires live != []
    ensures Copies(live) == Copies(live[..|live|-1]) + CopiesUpTo(live[|live|-1], |live[|live|-1].vms|)
    ensures Copies([]) == []
  {
  }

  lemma Regroup(a: seq<Copy>, b: seq<Copy>, c: seq<Copy>)
    ensures a + b + c == a + (b + c)
  {
  }

  /** A uuid held in the first file has its first holder there. */
  lemma FirstHolderInFirstFile(live: seq<File>, u: string, a: VmNode, h: VmNode)
    requires live != [] && DistinctIds(live) && HoldsUuid(live, u, a) && a.src == live[0].id
    requires FirstHolder(Copies(live), u, h)
    ensures h.src == live[0].id
  {
    var rest := CopiesStart(live);
    var v :| HasVm(live, a, v) && u in Uuids(v);
    var i :| 0 <= i < |live| && live[i].id == a.src && a.idx < |live[i].vms| && live[i].vms[a.idx] == v;
    assert i == 0 && Copies(live)[a.idx].vm == v;
  }

  lemma HasFirstHolder(live: seq<File>, u: string, a: VmNode) returns (h: VmNode)
    requires DistinctIds(live) && HoldsUuid(live, u, a)
    ensures FirstHolder(Copies(live), u, h) && forall x :: FirstHolder(Copies(live), u, x) ==> x == h
  {
    HoldsMeaning(live, u, a);
    IndexMeaning(Copies(live), Uuids, u, a);
    FirstInIndex(Copies(live), u);
    h := IndexOf(Copies(live), Uuids)[u][0];
  }

  /** With another holder's file first, holders of one file are joined through its first holder. */
  lemma JoinedWhenOtherFirst(live: seq<File>, u: string, a: VmNode, b: VmNode, c: VmNode)
    requires live != [] && DistinctIds(live) && c.src == live[0].id && a.src != c.src && b.src != c.src
    requires HoldsUuid(live, u, a) && HoldsUuid(live, u, b) && HoldsUuid(live, u, c)
    ensures SameVm(live, a, b)
  {
    var edges := UuidEdges(Copies(live)) + NameEdges(Copies(live));
    var h := HasFirstHolder(live, u, c);
    FirstHolderInFirstFile(live, u, c, h);
    forall n | n == a || n == b ensures Connected(edges, h, n) {
      HoldsMeaning(live, u, n);
      assert SharesUuidWithFirst(Copies(live), u, h, n);
      UuidEdgeMeaning(Copies(live), h, n);
      ConnectedEdge(edges, h, n);
    }
    ConnectedSym(edges, h, a);
    ConnectedTrans(edges, a, h, b);
  }

  /** Uuids carried together have one first holder. */
  lemma SameFirstHolder(live: seq<File>, u: string, w: string, n: VmNode, h: VmNode)
    requires DistinctIds(live) && UuidsTogether(live) && HoldsUuid(live, u, n) && HoldsUuid(live, w, n)
    requires FirstHolder(Copies(live), u, h)
    ensures FirstHolder(Copies(live), w, h)
  {
    var copies := Copies(live);
    forall j | 0 <= j < |copies| ensures u in Uuids(copies[j].vm) <==> w in Uuids(copies[j].vm) {
      HeldAt(live, u, j);
      HeldAt(live, w, j);
    }
    var i: nat :| FirstAt(copies, u, i) && copies[i].node == h;
    assert FirstAt(copies, w, i);
  }

  lemma HeldAt(live: seq<File>, u: string, j: nat)
    requires DistinctIds(live) && j < |Copies(live)|
    ensures HoldsUuid(live, u, Copies(live)[j].node) <==> u in Uuids(Copies(live)[j].vm)
  {
    var c := Copies(live)[j];
    CopiesMeaning(live);
    assert c in Copies(live) && HasVm(live, c.node, c.vm);
  }

  /** No edge touches a repeated holder in the first file that is not the first. */
  lemma SecondHolderUntouched(live: seq<File>, u: string, x: VmNode, e: (VmNode, VmNode))
    requires live != [] && DistinctIds(live) && UuidsTogether(live) && NamesSpareRepeats(live)
    requires Repeats(live, u, x) && x.src == live[0].id && !FirstHolder(Copies(live), u, x)
    requires e in UuidEdges(Copies(live)) + NameEdges(Copies(live))
    ensures e.0 != x && e.1 != x
  {
    if e in UuidEdges(Copies(live)) {
      UuidEdgeMeaning(Copies(live), e.0, e.1);
      var w :| SharesUuidWithFirst(Copies(live), w, e.0, e.1);
      FirstHolds(Copies(live), w, e.0);
      HoldsMeaning(live, w, e.0);
      HoldsMeaning(live, w, e.1);
      if e.0 == x {
        SameFirstHolder(live, w, u, x, x);
      } else if e.1 == x {
        FirstHolderInFirstFile(live, w, x, e.0);
      }
    }
  }

  lemma ApartWhenOwnFirst(live: seq<File>, u: string, a: VmNode, b: VmNode)
    requires live != [] && DistinctIds(live) && UuidsTogether(live) && NamesSpareRepeats(live)
    requires Repeats(live, u, a) && HoldsUuid(live, u, b) && a != b && a.src == b.src == live[0].id
    ensures !SameVm(live, a, b)
  {
    var edges := UuidEdges(Copies(live)) + NameEdges(Copies(live));
    var h := HasFirstHolder(live, u, a);
    var x, y := if a == h then b else a, if a == h then a else b;
    assert Repeats(live, u, x) by {
      var c :| HoldsUuid(live, u, c) && c.src != a.src;
      assert HoldsUuid(live, u, x) && HoldsUuid(live, u, y);
    }
    forall e | e in edges ensures e.0 != x && e.1 != x {
      SecondHolderUntouched(live, u, x, e);
    }
    if Connected(edges, a, b) {
      ConnectedSym(edges, a, b);
      ConnectedIsolated(edges, x, y);
    }
  }

  lemma ReorderedFacts(one: seq<File>, two: seq<File>)
    requires DistinctIds(one) && Reorders(one, two) && UuidsTogether(one) && NamesSpareRepeats(one)
    ensures UuidsTogether(two) && NamesSpareRepeats(two)
    ensures forall u, n :: HoldsUuid(one, u, n) <==> HoldsUuid(two, u, n)
  {
    forall u, n ensures HoldsUuid(one, u, n) <==> HoldsUuid(two, u, n) {
      SameHolders(one, two, u, n);
    }
    forall u, n ensures Repeats(two, u, n) ==> Repeats(one, u, n) {}
    forall e | e in NameEdges(Copies(two)) ensures e in NameEdges(Copies(one)) {
      NameEdgeReordered(one, two, e);
    }
  }

  lemma NameEdgeReordered(one: seq<File>, two: seq<File>, e: (VmNode, VmNode))
    requires DistinctIds(one) && Reorders(one, two) && e in NameEdges(Copies(two))
    ensures e in NameEdges(Copies(one))
  {
    NameEdgeMeaning(two, e.0, e.1);
    var v, w :| NamesakesApart(two, e.0, e.1, v, w);
    SameFilesSameVms(two, one, e.0, v);
    SameFilesSameVms(two, one, e.1, w);
    NameEdgeDrawn(one, e.0, e.1, v, w);
  }

  lemma FileOf(live: seq<File>, u: string, n: VmNode) returns (i: nat)
    requires HoldsUuid(live, u, n)
    ensures i < |live| && live[i].id == n.src
  {
    var v :| HasVm(live, n, v) && u in Uuids(v);
    i :| 0 <= i < |live| && live[i].id == n.src && n.idx < |live[i].vms| && live[i].vms[n.idx] == v;
  }

  ghost predicate OrderFree(live: seq<File>) {
    forall two :: Reorders(live, two) ==> SameClasses(live, two)
  }

  /** For any uuids and names: the upload order does not matter exactly when no order parts the holders of a uuid that
      two files hold. */
  lemma OrderJoins(live: seq<File>)
    requires DistinctIds(live)
    ensures OrderFree(live) <==> forall two :: Reorders(live, two) ==> HoldersJoined(two)
  {
    if OrderFree(live) {
      forall two | Reorders(live, two) ensures HoldersJoined(two) {
        forall u, a, b | SharedUuid(two, u) && HoldsUuid(two, u, a) && HoldsUuid(two, u, b) ensures SameVm(two, a, b) {
          var x, y :| HoldsUuid(two, u, x) && HoldsUuid(two, u, y) && x.src != y.src;
          forall n ensures HoldsUuid(live, u, n) <==> HoldsUuid(two, u, n) { SameHolders(live, two, u, n); }
          FreeHolders(live, u, a, b, if x.src != a.src then x else y);
        }
      }
    } else if forall two :: Reorders(live, two) ==> HoldersJoined(two) {
      forall two | Reorders(live, two) ensures SameClasses(live, two) {
        assert Reorders(live, live);
        forall a, b ensures SameVm(live, a, b) <==> SameVm(two, a, b) {
          JoinedOrdersAgree(live, two, a, b);
        }
      }
    }
  }

  /** Two holders in one file are joined by the order that puts another holder's file first. */
  lemma FreeNeighbours(live: seq<File>, u: string, a: VmNode, b: VmNode, c: VmNode)
    requires DistinctIds(live) && OrderFree(live) && a.src == b.src != c.src
    requires HoldsUuid(live, u, a) && HoldsUuid(live, u, b) && HoldsUuid(live, u, c)
    ensures SameVm(live, a, b)
  {
    var i := FileOf(live, u, c);
    var two := MovedFirst(live, i);
    MovedFirstReorders(live, i);
    forall n ensures HoldsUuid(live, u, n) <==> HoldsUuid(two, u, n) { SameHolders(live, two, u, n); }
    JoinedWhenOtherFirst(two, u, a, b, c);
    assert SameClasses(live, two);
  }

  lemma FreeHolders(live: seq<File>, u: string, a: VmNode, b: VmNode, c: VmNode)
    requires DistinctIds(live) && OrderFree(live) && c.src != a.src
    requires HoldsUuid(live, u, a) && HoldsUuid(live, u, b) && HoldsUuid(live, u, c)
    ensures SameVm(live, a, b)
  {
    if a.src == b.src {
      FreeNeighbours(live, u, a, b, c);
    } else {
      var i := FileOf(live, u, a);
      var two := MovedFirst(live, i);
      MovedFirstReorders(live, i);
      forall n ensures HoldsUuid(live, u, n) <==> HoldsUuid(two, u, n) { SameHolders(live, two, u, n); }
      var h := HasFirstHolder(two, u, a);
      FirstHolderInFirstFile(two, u, a, h);
      FirstHolds(Copies(two), u, h);
      HoldsMeaning(two, u, h);
      HoldsMeaning(two, u, b);
      assert SharesUuidWithFirst(Copies(two), u, h, b);
      UuidEdgeMeaning(Copies(two), h, b);
      ConnectedEdge(UuidEdges(Copies(two)) + NameEdges(Copies(two)), h, b);
      assert SameVm(two, h, b) && SameClasses(live, two);
      FreeNeighbours(live, u, a, h, b);
      ConnectedTrans(UuidEdges(Copies(live)) + NameEdges(Copies(live)), a, h, b);
    }
  }

  /** Where uuids that meet on one VM always go together, and no name edge touches a repeated holder, every upload order
      of the files gives the same VM classes exactly when no uuid that two files hold repeats inside one of them. */
  lemma OrderExact(live: seq<File>)
    requires DistinctIds(live) && UuidsTogether(live) && NamesSpareRepeats(live)
    ensures OrderFree(live) <==> RepeatsStayInFile(live)
  {
    if RepeatsStayInFile(live) {
      forall two | Reorders(live, two) ensures SameClasses(live, two) {
        forall a, b ensures SameVm(live, a, b) <==> SameVm(two, a, b) {
          OrderIndependent(live, two, a, b);
        }
      }
    } else {
      var u, a, b, c :| HoldsUuid(live, u, a) && HoldsUuid(live, u, b) && HoldsUuid(live, u, c)
                        && a != b && a.src == b.src && c.src != a.src;
      TwoOrders(live, u, a, b, c);
    }
  }

  lemma TwoOrders(live: seq<File>, u: string, a: VmNode, b: VmNode, c: VmNode)
    requires DistinctIds(live) && UuidsTogether(live) && NamesSpareRepeats(live)
    requires HoldsUuid(live, u, a) && HoldsUuid(live, u, b) && HoldsUuid(live, u, c)
    requires a != b && a.src == b.src && c.src != a.src
    ensures !OrderFree(live)
  {
    var i := FileOf(live, u, a);
    var own := MovedFirst(live, i);
    MovedFirstReorders(live, i);
    ReorderedFacts(live, own);
    assert Repeats(own, u, a) by {
      assert HoldsUuid(own, u, a) && HoldsUuid(own, u, b) && HoldsUuid(own, u, c);
    }
    ApartWhenOwnFirst(own, u, a, b);
    assert SameVm(live, a, b) ==> !SameClasses(live, own);
    if OrderFree(live) {
      FreeNeighbours(live, u, a, b, c);
    }
  }

  // ── two files whose order matters ─────────────────────────────────────────

  const TWIN := Vm("", "u", "", "", true, false, 0.0, 0)
  const PAIR := File(1, "pair", 0, [], [TWIN, TWIN], [], [], [])
  const SINGLE := File(2, "single", 0, [], [TWIN], [], [], [])

  lemma TwinKeys()
    ensures Uuids(TWIN) == {"u"} && VmName(TWIN) == ""
  {
    assert Strip("u") == "u" && Strip("") == "" && Lower("") == "";
    assert Lower("u") == ['u'] + Lower("") == "u";
    assert {"u", ""} - {""} == {"u"};
  }

  lemma TwinCopies()
    ensures Copies([PAIR, SINGLE]) == [Copy(VmNode(1, 0), TWIN), Copy(VmNode(1, 1), TWIN), Copy(VmNode(2, 0), TWIN)]
    ensures Copies([SINGLE, PAIR]) == [Copy(VmNode(2, 0), TWIN), Copy(VmNode(1, 0), TWIN), Copy(VmNode(1, 1), TWIN)]
  {
    assert [PAIR, SINGLE][..1] == [PAIR] && [PAIR][..0] == [] && [SINGLE, PAIR][..1] == [SINGLE] && [SINGLE][..0] == [];
    assert Copies([PAIR]) == Copies([]) + CopiesUpTo(PAIR, 2);
    assert Copies([SINGLE]) == Copies([]) + CopiesUpTo(SINGLE, 1);
  }

  lemma NoTwinName(live: seq<File>, e: (VmNode, VmNode))
    requires DistinctIds(live) && forall c :: c in Copies(live) ==> c.vm == TWIN
    ensures e !in NameEdges(Copies(live))
  {
    NameEdgeMeaning(live, e.0, e.1);
    forall v, w ensures !NamesakesApart(live, e.0, e.1, v, w) {
      CopiesMeaning(live);
      TwinKeys();
      if HasVm(live, e.0, v) {
        assert Copy(e.0, v) in Copies(live);
      }
    }
  }

  /** One file holds a uuid twice, the other once: the twins are one VM only when the other file comes first. */
  lemma OrderMatters()
    ensures DistinctIds([PAIR, SINGLE]) && DistinctIds([SINGLE, PAIR])
    ensures !SameVm([PAIR, SINGLE], VmNode(1, 0), VmNode(1, 1))
    ensures SameVm([SINGLE, PAIR], VmNode(1, 0), VmNode(1, 1))
  {
    PairFirst();
    SingleFirst();
  }

  lemma PairFirst()
    ensures !SameVm([PAIR, SINGLE], VmNode(1, 0), VmNode(1, 1))
  {
    var live := [PAIR, SINGLE];
    var edges := UuidEdges(Copies(live)) + NameEdges(Copies(live));
    TwinCopies();
    TwinKeys();
    forall e | e in edges ensures e.0 != VmNode(1, 1) && e.1 != VmNode(1, 1) {
      NoTwinName(live, e);
      UuidEdgeMeaning(Copies(live), e.0, e.1);
      var u :| SharesUuidWithFirst(Copies(live), u, e.0, e.1);
      assert u in Uuids(Copies(live)[0].vm);
    }
    if Connected(edges, VmNode(1, 0), VmNode(1, 1)) {
      ConnectedSym(edges, VmNode(1, 0), VmNode(1, 1));
      ConnectedIsolated(edges, VmNode(1, 1), VmNode(1, 0));
    }
  }

  lemma SingleFirst()
    ensures SameVm([SINGLE, PAIR], VmNode(1, 0), VmNode(1, 1))
  {
    var copies := Copies([SINGLE, PAIR]);
    var edges := UuidEdges(copies) + NameEdges(copies);
    TwinCopies();
    TwinKeys();
    assert FirstAt(copies, "u", 0);
    assert "u" in Uuids(copies[1].vm) && "u" in Uuids(copies[2].vm);
    assert SharesUuidWithFirst(copies, "u", VmNode(2, 0), VmNode(1, 0));
    assert SharesUuidWithFirst(copies, "u", VmNode(2, 0), VmNode(1, 1));
    UuidEdgeMeaning(copies, VmNode(2, 0), VmNode(1, 0));
    UuidEdgeMeaning(copies, VmNode(2, 0), VmNode(1, 1));
    ConnectedEdge(edges, VmNode(2, 0), VmNode(1, 0));
    ConnectedEdge(edges, VmNode(2, 0), VmNode(1, 1));
    ConnectedSym(edges, VmNode(2, 0), VmNode(1, 0));
    ConnectedTrans(edges, VmNode(1, 0), VmNode(2, 0), VmNode(1, 1));
  }
}
