/** The records one upload brings into the merge. */
module EstateModel {
  import opened Text

  datatype Host = Host(name: string, cluster: string, payload: nat)

  datatype Vm = Vm(name: string, uuid: string, biosUuid: string, cluster: string,
                   poweredOn: bool, template: bool, usedGb: real, payload: nat)

  /** A performance or NIC row: it names the host it belongs to. */
  datatype HostRow = HostRow(host: string, payload: nat)

  datatype Store = Store(mounts: seq<string>, capacity: Option<real>, used: Option<real>,
                         free: Option<real>, vmCount: Option<int>, payload: nat)

  datatype File = File(id: nat, stem: string, collected: nat, hosts: seq<Host>, vms: seq<Vm>,
                       perfs: seq<HostRow>, nics: seq<HostRow>, stores: seq<Store>)

  /** A VM record's place in the upload: its file and its index there. */
  datatype VmNode = VmNode(src: nat, idx: nat)

  datatype Copy = Copy(node: VmNode, vm: Vm)

  function HostKey(name: string): string {
    var n := Lower(Strip(name));
    if n == "" || IsIpv4(n) then n else SplitDots(n)[0]
  }

  function Uuids(vm: Vm): set<string> {
    {Lower(Strip(vm.uuid)), Lower(Strip(vm.biosUuid))} - {""}
  }

  function VmName(vm: Vm): string {
    Lower(Strip(vm.name))
  }

  function NameKeys(vm: Vm): set<string> {
    {VmName(vm)} - {""}
  }

  predicate Active(vm: Vm) {
    vm.poweredOn && !vm.template
  }

  /** A VM goes by either of its uuids and by its name, in lower case without blanks around them, where not blank. */
  lemma VmGoesBy(vm: Vm, key: string)
    ensures key in Uuids(vm) <==> key != "" && (key == Lower(Strip(vm.uuid)) || key == Lower(Strip(vm.biosUuid)))
    ensures key in NameKeys(vm) <==> key != "" && key == Lower(Strip(vm.name))
    ensures VmName(vm) == Lower(Strip(vm.name))
  {
  }

  predicate DistinctIds(live: seq<File>) {
    forall i, j :: 0 <= i < j < |live| ==> live[i].id != live[j].id
  }

  function CopiesUpTo(file: File, n: nat): (copies: seq<Copy>)
    requires n <= |file.vms|
    ensures |copies| == n
    ensures forall i :: 0 <= i < n ==> copies[i] == Copy(VmNode(file.id, i), file.vms[i])
  {
    seq(n, i requires 0 <= i < n => Copy(VmNode(file.id, i), file.vms[i]))
  }

  /** Every VM record of every file, in upload order. */
  function Copies(live: seq<File>): seq<Copy> {
    if live == [] then []
    else Copies(live[..|live|-1]) + CopiesUpTo(live[|live|-1], |live[|live|-1].vms|)
  }

  function NodeMap(copies: seq<Copy>): map<VmNode, Vm> {
    if copies == [] then map[]
    else NodeMap(copies[..|copies|-1])[copies[|copies|-1].node := copies[|copies|-1].vm]
  }

  predicate HasVm(live: seq<File>, node: VmNode, vm: Vm) {
    exists i :: 0 <= i < |live| && live[i].id == node.src && node.idx < |live[i].vms| && live[i].vms[node.idx] == vm
  }

  lemma {:induction false} CopiesMeaning(live: seq<File>)
    requires DistinctIds(live)
    ensures forall c: Copy :: c in Copies(live) <==> HasVm(live, c.node, c.vm)
    ensures forall i, j :: 0 <= i < j < |Copies(live)| ==> Copies(live)[i].node != Copies(live)[j].node
  {
    if live != [] {
      var front, last := live[..|live|-1], live[|live|-1];
      CopiesMeaning(front);
      var tail := CopiesUpTo(last, |last.vms|);
      forall c: Copy
        ensures c in Copies(live) <==> HasVm(live, c.node, c.vm)
      {
        assert c in tail <==> last.id == c.node.src && c.node.idx < |last.vms| && last.vms[c.node.idx] == c.vm by {
          if last.id == c.node.src && c.node.idx < |last.vms| && last.vms[c.node.idx] == c.vm {
            assert tail[c.node.idx] == c;
          }
        }
        if HasVm(front, c.node, c.vm) {
          var i :| 0 <= i < |front| && front[i].id == c.node.src && c.node.idx < |front[i].vms|
                   && front[i].vms[c.node.idx] == c.vm;
          assert live[i] == front[i];
        }
        if c in tail {
          assert live[|live|-1].id == c.node.src;
        }
        if HasVm(live, c.node, c.vm) {
          var i :| 0 <= i < |live| && live[i].id == c.node.src && c.node.idx < |live[i].vms|
                   && live[i].vms[c.node.idx] == c.vm;
          if i < |live| - 1 { assert front[i] == live[i]; }
        }
      }
      forall c | c in Copies(front)
        ensures c.node.src != last.id
      {
        assert HasVm(front, c.node, c.vm);
      }
    }
  }

  lemma {:induction false} NodeMapMeaning(copies: seq<Copy>)
    requires forall i, j :: 0 <= i < j < |copies| ==> copies[i].node != copies[j].node
    ensures forall n :: n in NodeMap(copies) ==> Copy(n, NodeMap(copies)[n]) in copies
    ensures forall c :: c in copies ==> c.node in NodeMap(copies) && NodeMap(copies)[c.node] == c.vm
  {
    if copies != [] {
      NodeMapMeaning(copies[..|copies|-1]);
    }
  }

  // ── the identity of a host ────────────────────────────────────────────────

  /** The name in lower case without the blanks around it. */
  function Plainly(name: string): string {
    Lower(Strip(name))
  }

  /** One to three digits. */
  predicate FewDigits(s: string) {
    |s| in {1, 2, 3} && forall i :: 0 <= i < |s| ==> s[i] in "0123456789"
  }

  lemma OctetIs(s: string)
    ensures IsOctet(s) <==> FewDigits(s)
  {
  }

  /** Four groups of one to three digits, with dots between them. */
  ghost predicate IsAddress(s: string) {
    exists a, b, c, d :: FewDigits(a) && FewDigits(b) && FewDigits(c) && FewDigits(d)
                         && s == a + "." + b + "." + c + "." + d
  }

  lemma AddressSplits(s: string)
    requires IsIpv4(s)
    ensures IsAddress(s)
  {
    var p := SplitDots(s);
    DotsSplit(s);
    assert p[1..][1..] == p[2..] && p[2..][1..] == p[3..];
    assert Joined(p[3..]) == p[3] && Joined(p[2..]) == p[2] + "." + p[3];
    assert Joined(p[1..]) == p[1] + "." + Joined(p[2..]);
    assert s == p[0] + "." + p[1] + "." + p[2] + "." + p[3];
    OctetIs(p[0]);
    OctetIs(p[1]);
    OctetIs(p[2]);
    OctetIs(p[3]);
    assert FewDigits(p[0]) && FewDigits(p[1]) && FewDigits(p[2]) && FewDigits(p[3]);
  }

  lemma {:induction false} OctetThenDot(o: string, rest: string)
    requires '.' !in o
    ensures SplitDots(o + "." + rest) == [o] + SplitDots(rest)
    ensures SplitDots(o) == [o]
  {
    if o == "" {
      assert o + "." + rest == "." + rest && ("." + rest)[1..] == rest;
    } else {
      var t := o + "." + rest;
      assert t[1..] == o[1..] + "." + rest && t[0] == o[0];
      OctetThenDot(o[1..], rest);
      assert o == [o[0]] + o[1..];
    }
  }

  lemma AddressIs(a: string, b: string, c: string, d: string)
    requires IsOctet(a) && IsOctet(b) && IsOctet(c) && IsOctet(d)
    ensures IsIpv4(a + "." + b + "." + c + "." + d)
  {
    var two := c + "." + d;
    var three := b + "." + two;
    OctetThenDot(d, "");
    OctetThenDot(c, d);
    OctetThenDot(b, two);
    OctetThenDot(a, three);
    Reassociate(a, b, c, d);
    assert SplitDots(a + "." + three) == [a, b, c, d];
  }

  lemma Reassociate(a: string, b: string, c: string, d: string)
    ensures a + "." + b + "." + c + "." + d == a + "." + (b + "." + (c + "." + d))
  {
  }

  /** A host is known by its name in lower case without blanks around it: all of it when it is an IPv4 address, else the
      part before the first dot. */
  lemma HostKeyIs(name: string)
    ensures var n, key := Plainly(name), HostKey(name);
            if IsAddress(n) then key == n
            else key <= n && '.' !in key && (key == n || n[|key|] == '.')
  {
    var n := Plainly(name);
    DotsSplit(n);
    if IsIpv4(n) {
      AddressSplits(n);
    }
    if a, b, c, d :| FewDigits(a) && FewDigits(b) && FewDigits(c) && FewDigits(d) && n == a + "." + b + "." + c + "." + d {
      OctetIs(a);
      OctetIs(b);
      OctetIs(c);
      OctetIs(d);
      AddressIs(a, b, c, d);
    }
  }

  /** So names that differ in case, blanks or domain share a key, and addresses only when they are the same. */
  lemma SameHost(a: string, b: string, domain: string)
    ensures Plainly(a) == Plainly(b) ==> HostKey(a) == HostKey(b)
    ensures IsAddress(Plainly(a)) && IsAddress(Plainly(b)) && HostKey(a) == HostKey(b) ==> Plainly(a) == Plainly(b)
    ensures Plainly(a) == Plainly(b) + "." + domain && !IsAddress(Plainly(a)) && '.' !in Plainly(b) ==>
              HostKey(a) == HostKey(b) == Plainly(b)
  {
    HostKeyIs(a);
    HostKeyIs(b);
    if Plainly(a) == Plainly(b) + "." + domain && !IsAddress(Plainly(a)) && '.' !in Plainly(b) {
      OctetThenDot(Plainly(b), domain);
      FirstPart(a);
      FirstPart(b);
    }
  }

  lemma FirstPart(name: string)
    ensures !IsAddress(Plainly(name)) ==> HostKey(name) == SplitDots(Plainly(name))[0]
  {
    if IsIpv4(Plainly(name)) {
      AddressSplits(Plainly(name));
    }
  }
}
