/** The re-described recommendation against a cluster built from the quoted hardware. */
module HardwareAgreement {
  import opened Text
  import opened Rounding
  import opened ClusterLayouts
  import opened HardwareFigures
  import opened HardwareOverride

  // ── the hardware a quote describes ────────────────────────────────────────

  function CoresOf(n: Node, q: Quote): real {
    if q.cores != 0 then q.cores as real else n.cores
  }

  function RamOf(n: Node, q: Quote): real {
    if q.ram != 0 then q.ram as real else n.ram
  }

  /** Threads as quoted; with cores typed alone, in the sized proportion; else as sized. */
  function ThreadsOf(n: Node, q: Quote): int {
    if q.threads != 0 then q.threads
    else if q.cores != 0 && "cores_per_node" in q.manual && n.cores != 0.0
            && RoundInt(Times(q.cores as real, n.threads) / n.cores) != 0
    then RoundInt(Times(q.cores as real, n.threads) / n.cores)
    else n.threads
  }

  function NodesOf(n: Node, q: Quote): int {
    if q.nodes != 0 then q.nodes else n.nodes
  }

  predicate ShapeFromBom(q: Quote) {
    q.bom.Some? && "node_count" !in q.manual
  }

  function StorageOnlyOf(n: Node, q: Quote): int {
    if ShapeFromBom(q) && q.bom.value.storageOnly.Some? then q.bom.value.storageOnly.value else n.storageOnly
  }

  /** Nodes that run virtual machines: as sized for the sized node count; for another, the bill of materials' own split,
      or all but the storage-only nodes, one at least. */
  function RunningOf(n: Node, q: Quote): int {
    if q.nodes == 0 || q.nodes == n.nodes then if n.hci != 0 then n.hci else n.nodes
    else if ShapeFromBom(q) && q.bom.value.hci != 0 then q.bom.value.hci
    else if q.nodes - StorageOnlyOf(n, q) >= 1 then q.nodes - StorageOnlyOf(n, q) else 1
  }

  /** The CPU is another one. */
  predicate OtherCpu(n: Node, q: Quote) {
    (q.cpu != "" && q.cpu != n.cpu) || CoresOf(n, q) != n.cores || ThreadsOf(n, q) != n.threads
  }

  /** Nothing about the CPU was typed, so it comes from the bill of materials. */
  predicate CpuUntyped(q: Quote) {
    && q.bom.Some? && "cpu" !in q.manual && "cores_per_node" !in q.manual && "threads_per_node" !in q.manual
    && (q.cpu != "" || q.cores != 0 || q.threads != 0)
  }

  /** A figure of the bill of materials' whole cluster, per node that runs virtual machines. */
  function PerBomNode(q: Quote, full: real): Option<real>
    requires q.bom.Some?
  {
    var b := q.bom.value;
    var nodes := if b.hci != 0 then b.hci else b.nodes;
    if nodes != 0 && full != 0.0 then Some(full / nodes as real) else None
  }

  /** The clock of a node: the bill of materials' for another CPU that it knows, else the sized clock over the cores. */
  function NodeClockOf(n: Node, q: Quote): real {
    if OtherCpu(n, q) && CpuUntyped(q) && PerBomNode(q, q.bom.value.ghzFull).Some?
    then PerBomNode(q, q.bom.value.ghzFull).value else n.ghz * CoresOf(n, q)
  }

  /** The benchmark of a node: the bill of materials' for another CPU, unknown when it has none; else the sized one. */
  function NodePerfOf(n: Node, q: Quote): Option<real> {
    if !OtherCpu(n, q) then n.perf
    else if CpuUntyped(q) then PerBomNode(q, q.bom.value.perfFull) else None
  }

  /** What the platform keeps of a sized node, which the quoted node can spare. */
  predicate ReserveFits(n: Node, q: Quote) {
    0.0 <= n.cores - n.usableCores <= CoresOf(n, q) && 0.0 <= n.ram - n.usableRam <= RamOf(n, q)
  }

  predicate RamFromBom(n: Node, q: Quote) {
    && q.ram != 0 && q.ram as real != n.ram
    && q.bom.Some? && q.bom.value.usableRam != 0.0 && "ram_per_node_gb" !in q.manual
  }

  /** The quoted cluster built directly, the platform keeping what it kept of the sized node. */
  function QuotedBuild(r: Rec, q: Quote, maxPer: int, ghz: real): Capacity
    requires maxPer > 0
  {
    var n, s := r.node, QuotedStorage(r.storage, q);
    DirectBuild(Build(RunningOf(n, q), NodesOf(n, q), QuotedNode(n, q, maxPer).layout, CoresOf(n, q), ThreadsOf(n, q),
                      ghz, RamOf(n, q), s.raw, s.biggest, BaysOr2(s)),
                n.cores - n.usableCores, n.ram - n.usableRam)
  }

  // ── the quoted node ───────────────────────────────────────────────────────

  /** The quoted node: each figure that is quoted, and else as sized. */
  lemma QuotedIs(n: Node, q: Quote, maxPer: int)
    requires maxPer > 0
    ensures var out := QuotedNode(n, q, maxPer);
            && out.cores == CoresOf(n, q) && out.ram == RamOf(n, q) && out.threads == ThreadsOf(n, q)
            && out.nodes == NodesOf(n, q)
            && (q.nodes >= 0 && StorageOnlyOf(n, q) >= 0 ==> HciOf(out) == RunningOf(n, q))
  {
    CpuIs(n, q);
  }

  /** So are the CPU's name and whether it is a single node. */
  lemma LabelsAre(n: Node, q: Quote, maxPer: int)
    requires maxPer > 0
    ensures var out := QuotedNode(n, q, maxPer);
            && out.cpu == (if q.cpu != "" then q.cpu else n.cpu)
            && out.single == (if NodesOf(n, q) != n.nodes then NodesOf(n, q) == 1 else n.single)
  {
  }

  lemma CpuIs(n: Node, q: Quote)
    ensures CpuNode(n, q).cores == CoresOf(n, q) && CpuNode(n, q).threads == ThreadsOf(n, q)
  {
  }

  /** The reserve is carried over where it fits. */
  lemma ReserveCarried(n: Node, q: Quote, maxPer: int)
    requires maxPer > 0 && ReserveFits(n, q)
    ensures var out := QuotedNode(n, q, maxPer);
            && out.usableCores == CoresOf(n, q) - (n.cores - n.usableCores)
            && (!RamFromBom(n, q) ==> out.usableRam == RamOf(n, q) - (n.ram - n.usableRam))
  {
  }

  /** A quoted node smaller than the reserve has nothing left, and the bill of materials' own usable RAM is taken as it
      is. */
  lemma ReserveFloored(n: Node, q: Quote, maxPer: int)
    requires maxPer > 0
    ensures var out := QuotedNode(n, q, maxPer);
            && (0.0 <= n.usableCores && n.cores - n.usableCores > CoresOf(n, q) ==> out.usableCores == 0.0)
            && (0.0 <= n.usableRam && n.ram - n.usableRam > RamOf(n, q) && !RamFromBom(n, q) ==> out.usableRam == 0.0)
            && (RamFromBom(n, q) ==> out.usableRam == q.bom.value.usableRam)
  {
  }

  lemma ClockIs(n: Node, q: Quote, s: Storage, maxPer: int)
    requires maxPer > 0
    ensures GhzOf(QuotedNode(n, q, maxPer), HwFor(n, s, q, maxPer)) == NodeClockOf(n, q)
  {
    OtherIs(n, q);
    QuotedIs(n, q, maxPer);
    ClockKept(n, q, maxPer);
    if OtherCpu(n, q) && BomGhz(q).None? {
      assert NodeClock(n.ghz, CoresOf(n, q)) == n.ghz * CoresOf(n, q);
    }
  }

  /** Without a clock of the bill of materials the sized one is shown on. */
  lemma ClockKept(n: Node, q: Quote, maxPer: int)
    requires maxPer > 0
    ensures !CpuDiffers(n, q) || BomGhz(q).None? ==> QuotedNode(n, q, maxPer).ghz == n.ghz
    ensures !CpuDiffers(n, q) ==> QuotedNode(n, q, maxPer).cores == n.cores
  {
  }

  function Scaled(perf: Option<real>, nodes: int): Option<real> {
    if perf.Some? then Some(Round1(Times(perf.value, nodes))) else None
  }

  /** The cluster's benchmark is the node's times its nodes, or unknown; so is the node's own, to a tenth. */
  lemma PerfIs(r: Rec, q: Quote, maxPer: int)
    requires maxPer > 0 && r.node.validated && HwFor(r.node, r.storage, q, maxPer).changed
    ensures var out := Applied(r, Some(q), maxPer);
            && out.totals.perf == Scaled(NodePerfOf(r.node, q), HciOf(out.node))
            && out.node.perf == if OtherCpu(r.node, q) then Shown1(NodePerfOf(r.node, q)) else r.node.perf
  {
    ChangedIsNotEmpty(r, q, maxPer);
    var n, hw := QuotedNode(r.node, q, maxPer), HwFor(r.node, r.storage, q, maxPer);
    PerfCarried(r.node, q, maxPer);
    assert hw.perf == NodePerfOf(r.node, q);
    PerfRebuilt(r, n, QuotedStorage(r.storage, q), hw);
  }

  function Shown1(x: Option<real>): Option<real> {
    if x.Some? then Some(Round1(x.value)) else None
  }

  lemma PerfRebuilt(r: Rec, n: Node, s: Storage, hw: Hw)
    requires hw.changed
    ensures var out := Rebuilt(r, n, s, hw);
            out.totals.perf == Scaled(hw.perf, HciOf(n)) && out.node.perf == n.perf && HciOf(out.node) == HciOf(n)
  {
  }

  lemma OtherIs(n: Node, q: Quote)
    ensures CpuDiffers(n, q) <==> OtherCpu(n, q)
    ensures CpuFromBom(q) <==> CpuUntyped(q)
    ensures CpuFromBom(q) ==>
              BomGhz(q) == PerBomNode(q, q.bom.value.ghzFull) && BomPerf(q) == PerBomNode(q, q.bom.value.perfFull)
    ensures !CpuFromBom(q) ==> BomGhz(q) == None && BomPerf(q) == None
  {
  }

  lemma PerfCarried(n: Node, q: Quote, maxPer: int)
    requires maxPer > 0
    ensures NodePerf(n, q) == NodePerfOf(n, q)
    ensures QuotedNode(n, q, maxPer).perf
            == if OtherCpu(n, q) then Shown1(NodePerfOf(n, q)) else n.perf
  {
    OtherIs(n, q);
  }

  // ── agreement ─────────────────────────────────────────────────────────────

  predicate Agrees(out: Rec, direct: Capacity) {
    TotalsAgree(out.totals, direct.totals) && N1Agrees(out.n1, direct.n1)
  }

  /** A quote that leaves the platform its reserve and does not state usable RAM of its own. */
  predicate Quotable(r: Rec, q: Quote) {
    && r.node.validated && q.nodes >= 0 && StorageOnlyOf(r.node, q) >= 0
    && ReserveFits(r.node, q) && !RamFromBom(r.node, q)
  }

  lemma SameBuild(r: Rec, q: Quote, maxPer: int, ghz: real)
    requires maxPer > 0 && Quotable(r, q)
    ensures var n := r.node;
            QuotedBuild(r, q, maxPer, ghz)
            == DirectOf(QuotedNode(n, q, maxPer), QuotedStorage(r.storage, q), n.cores - n.usableCores,
                        n.ram - n.usableRam, ghz)
  {
    QuotedIs(r.node, q, maxPer);
    ReserveCarried(r.node, q, maxPer);
  }

  lemma SameClock(r: Rec, q: Quote, maxPer: int, ghz: real)
    requires maxPer > 0 && Quotable(r, q) && NodeClock(ghz, CoresOf(r.node, q)) == NodeClockOf(r.node, q)
    ensures var n := QuotedNode(r.node, q, maxPer);
            NodeClock(ghz, n.usableCores + (r.node.cores - r.node.usableCores))
            == GhzOf(n, HwFor(r.node, r.storage, q, maxPer))
  {
    ReserveCarried(r.node, q, maxPer);
    ClockIs(r.node, q, r.storage, maxPer);
    assert QuotedNode(r.node, q, maxPer).usableCores + (r.node.cores - r.node.usableCores) == CoresOf(r.node, q);
  }

  /** A consistent recommendation with disks, re-described by any quote that changes hardware, keeps the cluster count
      and whose storage follows, has the totals, N-1 and usable storage of the quoted cluster built directly, the
      platform keeping what it kept: exact for cores, threads and storage, to 0.055 for GHz and 0.05 for RAM, where the
      two round at different places. */
  lemma QuoteAgreesWithDirectBuild(r: Rec, q: Quote, maxPer: int, ghz: real)
    requires maxPer > 0 && Quotable(r, q) && Consistent(r) && DrivesKnown(q)
    requires ClustersKept(r.node, q) && StorageFollows(r, q, maxPer)
    requires QuotedStorage(r.storage, q).raw != 0.0 && HwFor(r.node, r.storage, q, maxPer).changed
    requires NodeClock(ghz, CoresOf(r.node, q)) == NodeClockOf(r.node, q)
    ensures Agrees(Applied(r, Some(q), maxPer), QuotedBuild(r, q, maxPer, ghz))
  {
    SameBuild(r, q, maxPer, ghz);
    SameClock(r, q, maxPer, ghz);
    ResultAgrees(r, q, maxPer, r.node.cores - r.node.usableCores, r.node.ram - r.node.usableRam, ghz);
  }

  /** With cores to count and a node to spare per cluster it agrees only then. */
  lemma AgreesExactly(r: Rec, q: Quote, maxPer: int, ghz: real)
    requires maxPer > 0 && Quotable(r, q) && Consistent(r) && DrivesKnown(q) && Measurable(r.storage)
    requires QuotedStorage(r.storage, q).raw != 0.0 && HwFor(r.node, r.storage, q, maxPer).changed
    requires NodeClock(ghz, CoresOf(r.node, q)) == NodeClockOf(r.node, q)
    requires CoresOf(r.node, q) > r.node.cores - r.node.usableCores && RunningOf(r.node, q) > 1
    requires RunningOf(r.node, q) >= |QuotedNode(r.node, q, maxPer).layout|
    requires RunningOf(r.node, q) >= |QuotedLayout(r.node, q, maxPer)|
    ensures Agrees(Applied(r, Some(q), maxPer), QuotedBuild(r, q, maxPer, ghz))
            <==> ClustersKept(r.node, q) && StorageFollows(r, q, maxPer)
  {
    SameBuild(r, q, maxPer, ghz);
    SameClock(r, q, maxPer, ghz);
    QuotedIs(r.node, q, maxPer);
    ReserveCarried(r.node, q, maxPer);
    ResultAgreesExactly(r, q, maxPer, r.node.cores - r.node.usableCores, r.node.ram - r.node.usableRam, ghz);
  }

  /** The storage totals of a quote without drives: the bill of materials' own beside a storage text; else those of the
      known disks on another node count; else as they were. */
  lemma StorageTotals(r: Rec, q: Quote, maxPer: int)
    requires maxPer > 0 && r.node.validated && HwFor(r.node, r.storage, q, maxPer).changed && q.drives == []
    ensures var was, now := r.totals, Applied(r, Some(q), maxPer).totals; var s := r.storage;
            if q.storageDesc != "" && StorageFromBom(q)
            then var raw := q.bom.value.rawStorage;
                 && now.usable == Some(Round2(q.bom.value.usableStorage))
                 && now.raw == (if raw.Some? then Some(Round2(raw.value)) else was.raw)
            else if q.storageDesc == "" && NodesOf(r.node, q) != r.node.nodes && s.raw != 0.0
            then var layout := QuotedLayout(r.node, q, maxPer);
                 && now.raw == Some(Round2(Times(s.raw, NodesOf(r.node, q))))
                 && now.usable == Some(Round2(QuotedUsable(s.raw, s.biggest, BaysOr2(s), layout)))
            else now.raw == was.raw && now.usable == was.usable
  {
    ChangedIsNotEmpty(r, q, maxPer);
  }

  /** The clusters of a quote: the bill of materials' own split of the nodes, an even one for another node count, else
      as sized. */
  lemma LayoutIs(n: Node, s: Storage, q: Quote, maxPer: int)
    requires maxPer > 0
    ensures var layout := HwFor(n, s, q, maxPer).layout;
            && layout == QuotedLayout(n, q, maxPer)
            && (ShapeFromBom(q) && q.bom.value.layout != [] && Sum(q.bom.value.layout) == NodesOf(n, q) ==>
                layout == q.bom.value.layout)
            && (!(ShapeFromBom(q) && q.bom.value.layout != [] && Sum(q.bom.value.layout) == NodesOf(n, q)) ==>
                layout == if NodesOf(n, q) != n.nodes then Layout(NodesOf(n, q), maxPer)
                          else if n.layout != [] then n.layout else [n.nodes])
    ensures NodesOf(n, q) != n.nodes ==> QuotedNode(n, q, maxPer).layout == QuotedLayout(n, q, maxPer)
    ensures NodesOf(n, q) == n.nodes ==> QuotedNode(n, q, maxPer).layout == n.layout
  {
  }

  /** IOPS are dropped for other disks; for another node count they are multiplied out, N-1 by a node less per cluster;
      else they stay. */
  lemma IopsFollow(r: Rec, q: Quote, maxPer: int)
    requires maxPer > 0 && r.node.validated && HwFor(r.node, r.storage, q, maxPer).changed && r.iops.Some?
    requires q.nodes >= 0 && StorageOnlyOf(r.node, q) >= 0
    ensures var out := Applied(r, Some(q), maxPer).iops; var i := r.iops.value;
            var hosts, clusters := RunningOf(r.node, q), |QuotedLayout(r.node, q, maxPer)|;
            if q.drives != [] || (q.storageDesc != "" && StorageFromBom(q)) then out == None
            else if NodesOf(r.node, q) != r.node.nodes && i.perNode.Some?
            then var left := if hosts == 1 then 1 else if hosts > clusters then hosts - clusters else 0;
                 && out.Some? && out.value.perNode == i.perNode
                 && out.value.total == Times(i.perNode.value, NodesOf(r.node, q))
                 && out.value.n1 == Times(i.perNode.value, left)
            else out == r.iops
  {
    ChangedIsNotEmpty(r, q, maxPer);
    QuotedIs(r.node, q, maxPer);
  }

  // ── the quoted drives ─────────────────────────────────────────────────────

  /** Raw capacity and drive count add up drive by drive, each its size times its number. */
  lemma {:induction false} DrivesAddUp(a: seq<Drive>, b: seq<Drive>)
    ensures RawOf(a + b) == RawOf(a) + RawOf(b) && BaysOf(a + b) == BaysOf(a) + BaysOf(b)
    ensures forall d: Drive :: RawOf([d]) == d.tb * d.qty as real && BaysOf([d]) == d.qty
    ensures RawOf([]) == 0.0 && BaysOf([]) == 0
  {
    forall d: Drive ensures RawOf([d]) == d.tb * d.qty as real && BaysOf([d]) == d.qty {
      assert [d][..0] == [];
    }
    if b == [] {
      assert a + b == a;
    } else {
      DrivesAddUp(a, b[..|b|-1]);
      assert (a + b)[..|a+b|-1] == a + b[..|b|-1];
    }
  }

  /** The biggest drive is one of them, and none is bigger. */
  lemma {:induction false} BiggestIs(drives: seq<Drive>)
    requires drives != []
    ensures exists d :: d in drives && d.tb == BiggestOf(drives)
    ensures forall d :: d in drives ==> d.tb <= BiggestOf(drives)
  {
    var front, last := drives[..|drives|-1], drives[|drives|-1];
    assert drives == front + [last];
    if front != [] {
      BiggestIs(front);
      var d :| d in front && d.tb == BiggestOf(front);
      assert d in drives && last in drives;
    }
  }

  /** The node's storage is that of the quoted drives, to half a gigabyte, or as it was. */
  lemma StorageIs(s: Storage, q: Quote)
    ensures var out := QuotedStorage(s, q);
            if q.drives == [] then out == s
            else && Near(out.raw, RawOf(q.drives), 0.0005)
                 && out.biggest == BiggestOf(q.drives) && out.bays == BaysOf(q.drives)
  {
  }

  /** Usable storage of a laid-out cluster, and of a single node, which mirrors its disks when it has more than one. */
  lemma UsableIs(raw: real, biggest: real, bays: int, layout: seq<int>)
    ensures Sum(layout) > 1 ==>
              QuotedUsable(raw, biggest, bays, layout) == (raw * Sum(layout) as real - biggest * |layout| as real) / 2.0
    ensures Sum(layout) <= 1 ==> QuotedUsable(raw, biggest, bays, layout) == if bays > 1 then raw / 2.0 else raw
  {
    ClusterUsableClosed(raw, biggest, layout);
  }
}
