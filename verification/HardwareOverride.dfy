/** A stored recommendation re-described for the hardware actually quoted. */
module HardwareOverride {
  import opened Text
  import opened Rounding
  import opened ClusterLayouts
  import opened HardwareFigures

  /** Per-node figures and the shape of the cluster; 0, "" and [] stand for a missing entry. */
  datatype Node = Node(cpu: string, cores: real, usableCores: real, threads: int, ghz: real, perf: Option<real>,
                       ram: real, usableRam: real, nodes: int, hci: int, layout: seq<int>, single: bool,
                       storageOnly: int, sizedFull: bool, validated: bool,
                       ratio: Option<real>, degraded: Option<real>)

  datatype Storage = Storage(raw: real, biggest: real, bays: int)
  datatype Demand = Demand(current: real, total: real, snapshot: real, capacity: real)
  datatype Bar = Bar(current: int, total: int, snapshot: int, replication: int, haReserve: int, demand: Option<Demand>)
  datatype Bars = Bars(cpu: Option<Bar>, ram: Option<Bar>, storage: Option<Bar>)
  datatype Iops = Iops(perNode: Option<real>, total: real, n1: real)

  datatype Rec = Rec(node: Node, storage: Storage, totals: Totals, n1: N1, bars: Option<Bars>, iops: Option<Iops>)

  // ── the quoted hardware ───────────────────────────────────────────────────

  datatype Drive = Drive(tb: real, qty: int)

  /** What a bill of materials says about its whole cluster. */
  datatype Bom = Bom(nodes: int, hci: int, storageOnly: Option<int>, layout: seq<int>, ghzFull: real, perfFull: real,
                     usableRam: real, usableStorage: real, rawStorage: Option<real>)

  datatype Quote = Quote(cpu: string, cores: int, threads: int, ram: int, nodes: int,
                         drives: seq<Drive>, storageDesc: string, manual: set<string>, bom: Option<Bom>)

  /** What the rebuild of the cluster needs to know. */
  datatype Hw = Hw(changed: bool, ghz: Option<real>, perf: Option<real>,
                   nodesChanged: bool, storageChanged: bool, raw: Option<real>, biggest: real, bays: int,
                   layout: seq<int>, storageUsable: Option<real>, storageRaw: Option<real>)

  function Over(a: real, b: real): real {
    if a - b > 0.0 then a - b else 0.0
  }

  // ── the CPU ───────────────────────────────────────────────────────────────

  /** A quote silent on threads scales them with its cores. */
  function QuotedThreads(n: Node, q: Quote): int {
    if q.threads != 0 then q.threads
    else if q.cores != 0 && "cores_per_node" in q.manual && n.cores != 0.0
    then RoundInt(Times(q.cores as real, n.threads) / n.cores)
    else 0
  }

  predicate CoresDiffer(n: Node, q: Quote) {
    q.cores != 0 && q.cores as real != n.cores
  }

  predicate ThreadsDiffer(n: Node, q: Quote) {
    QuotedThreads(n, q) != 0 && QuotedThreads(n, q) != n.threads
  }

  predicate CpuDiffers(n: Node, q: Quote) {
    (q.cpu != "" && q.cpu != n.cpu) || CoresDiffer(n, q) || ThreadsDiffer(n, q)
  }

  /** The platform's share of cores is carried over from the sizing. */
  function QuotedCpu(n: Node, q: Quote): Node {
    n.(cpu := if q.cpu != "" then q.cpu else n.cpu,
       cores := if CoresDiffer(n, q) then q.cores as real else n.cores,
       usableCores := if CoresDiffer(n, q) then Over(q.cores as real, Over(n.cores, n.usableCores)) else n.usableCores,
       threads := if ThreadsDiffer(n, q) then QuotedThreads(n, q) else n.threads)
  }

  predicate CpuFromBom(q: Quote) {
    && q.bom.Some? && q.manual !! {"cpu", "cores_per_node", "threads_per_node"}
    && (q.cpu != "" || q.cores != 0 || q.threads != 0)
  }

  function BomHci(b: Bom): int {
    if b.hci != 0 then b.hci else b.nodes
  }

  function BomGhz(q: Quote): Option<real> {
    if CpuFromBom(q) && BomHci(q.bom.value) != 0 && q.bom.value.ghzFull != 0.0
    then Some(q.bom.value.ghzFull / BomHci(q.bom.value) as real) else None
  }

  function BomPerf(q: Quote): Option<real> {
    if CpuFromBom(q) && BomHci(q.bom.value) != 0 && q.bom.value.perfFull != 0.0
    then Some(q.bom.value.perfFull / BomHci(q.bom.value) as real) else None
  }

  function CpuNode(n: Node, q: Quote): Node {
    if !CpuDiffers(n, q) then n
    else
      var m := QuotedCpu(n, q);
      m.(ghz := if BomGhz(q).Some? && m.cores != 0.0 then Round3(BomGhz(q).value / m.cores) else m.ghz,
         perf := if BomPerf(q).Some? then Some(Round1(BomPerf(q).value)) else None)
  }

  function NodeGhz(n: Node, q: Quote): Option<real> {
    if CpuDiffers(n, q) then BomGhz(q)
    else if n.ghz != 0.0 && n.cores != 0.0 then Some(NodeClock(n.ghz, n.cores)) else None
  }

  function NodePerf(n: Node, q: Quote): Option<real> {
    if CpuDiffers(n, q) then BomPerf(q) else n.perf
  }

  // ── RAM, nodes, layout ────────────────────────────────────────────────────

  predicate RamDiffers(n: Node, q: Quote) {
    q.ram != 0 && q.ram as real != n.ram
  }

  function UsableRam(n: Node, q: Quote): real {
    if q.bom.Some? && q.bom.value.usableRam != 0.0 && "ram_per_node_gb" !in q.manual then q.bom.value.usableRam
    else Over(q.ram as real, Over(n.ram, n.usableRam))
  }

  function RamNode(n: Node, was: Node, q: Quote): Node {
    if RamDiffers(was, q) then n.(ram := q.ram as real, usableRam := UsableRam(was, q)) else n
  }

  predicate NodesDiffer(n: Node, q: Quote) {
    q.nodes != 0 && q.nodes != n.nodes
  }

  predicate NodesFromBom(q: Quote) {
    q.bom.Some? && "node_count" !in q.manual
  }

  /** Nodes left for virtual machines: the bill of materials' own split, else what the storage-only nodes leave, at
      least one. */
  function QuotedHci(n: Node, q: Quote): int {
    var so := if NodesFromBom(q) && q.bom.value.storageOnly.Some? then q.bom.value.storageOnly.value else n.storageOnly;
    if NodesFromBom(q) && q.bom.value.hci != 0 then q.bom.value.hci
    else if so != 0 then Max(q.nodes - so, 1) else q.nodes
  }

  function TotalNodes(n: Node, q: Quote): int {
    if NodesDiffer(n, q) then q.nodes else n.nodes
  }

  predicate LayoutFromBom(n: Node, q: Quote) {
    NodesFromBom(q) && q.bom.value.layout != [] && Sum(q.bom.value.layout) == TotalNodes(n, q)
  }

  function QuotedLayout(n: Node, q: Quote, maxPer: int): seq<int>
    requires maxPer > 0
  {
    if LayoutFromBom(n, q) then q.bom.value.layout
    else if NodesDiffer(n, q) then Layout(TotalNodes(n, q), maxPer)
    else if n.layout != [] then n.layout else [n.nodes]
  }

  function NodesNode(n: Node, was: Node, q: Quote, maxPer: int): Node
    requires maxPer > 0
  {
    if NodesDiffer(was, q) then
      n.(nodes := q.nodes, hci := QuotedHci(was, q), single := q.nodes == 1, layout := QuotedLayout(was, q, maxPer))
    else n
  }

  // ── storage ───────────────────────────────────────────────────────────────

  function RawOf(drives: seq<Drive>): real {
    if drives == [] then 0.0 else RawOf(drives[..|drives|-1]) + Times(drives[|drives|-1].tb, drives[|drives|-1].qty)
  }

  function BaysOf(drives: seq<Drive>): int {
    if drives == [] then 0 else BaysOf(drives[..|drives|-1]) + drives[|drives|-1].qty
  }

  function BiggestOf(drives: seq<Drive>): real
    requires drives != []
  {
    var last := drives[|drives|-1].tb;
    if |drives| == 1 then last
    else
      var rest := BiggestOf(drives[..|drives|-1]);
      if last > rest then last else rest
  }

  function BaysOr2(s: Storage): int {
    if s.bays != 0 then s.bays else 2
  }

  function QuotedStorage(s: Storage, q: Quote): Storage {
    if q.drives != [] then Storage(Round3(RawOf(q.drives)), BiggestOf(q.drives), BaysOf(q.drives)) else s
  }

  predicate BomStorage(q: Quote) {
    q.drives == [] && q.storageDesc != "" && NodesFromBom(q) && q.bom.value.usableStorage != 0.0
  }

  predicate SameDisks(n: Node, s: Storage, q: Quote) {
    q.drives == [] && q.storageDesc == "" && NodesDiffer(n, q) && s.raw != 0.0
  }

  function HwFor(n: Node, s: Storage, q: Quote, maxPer: int): Hw
    requires maxPer > 0
  {
    var storageChanged := q.drives != [] || BomStorage(q);
    Hw(CpuDiffers(n, q) || RamDiffers(n, q) || NodesDiffer(n, q) || storageChanged,
       NodeGhz(n, q), NodePerf(n, q), NodesDiffer(n, q), storageChanged,
       if q.drives != [] then Some(RawOf(q.drives)) else if SameDisks(n, s, q) then Some(s.raw) else None,
       if q.drives != [] then BiggestOf(q.drives) else if SameDisks(n, s, q) then s.biggest else 0.0,
       if q.drives != [] then BaysOf(q.drives) else if SameDisks(n, s, q) then BaysOr2(s) else 0,
       QuotedLayout(n, q, maxPer),
       if BomStorage(q) then Some(q.bom.value.usableStorage) else None,
       if BomStorage(q) then q.bom.value.rawStorage else None)
  }

  function QuotedNode(n: Node, q: Quote, maxPer: int): Node
    requires maxPer > 0
  {
    NodesNode(RamNode(CpuNode(n, q), n, q), n, q, maxPer)
  }

  // ── the rebuild ───────────────────────────────────────────────────────────

  function HciOf(n: Node): int {
    if n.hci != 0 then n.hci else n.nodes
  }

  function GhzOf(n: Node, hw: Hw): real {
    if hw.ghz.Some? then hw.ghz.value else NodeClock(n.ghz, n.cores)
  }

  function NewTotals(n: Node, was: Totals, hw: Hw): Totals {
    var hci := HciOf(n);
    var t := was.(cores := Times(n.usableCores, hci), threads := n.threads * hci,
                  ghz := Round1(Times(GhzOf(n, hw), hci)), ram := Round1(Times(n.usableRam, hci)),
                  perf := if hw.perf.Some? then Some(Round1(Times(hw.perf.value, hci))) else None);
    if hw.raw.Some? then
      t.(raw := Some(Round2(Times(hw.raw.value, n.nodes))),
         usable := Some(Round2(QuotedUsable(hw.raw.value, hw.biggest, hw.bays, hw.layout))))
    else if hw.storageUsable.Some? then
      t.(usable := Some(Round2(hw.storageUsable.value)),
         raw := if hw.storageRaw.Some? then Some(Round2(hw.storageRaw.value)) else t.raw)
    else t
  }

  function UsableOrZero(t: Totals): real {
    if t.usable.Some? then t.usable.value else 0.0
  }

  function NewN1(n: Node, t: Totals, hw: Hw): N1 {
    var block := NMinusOne(HciOf(n), |hw.layout|, n.usableCores, n.threads, GhzOf(n, hw), n.usableRam, UsableOrZero(t));
    block.(ghz := Round1(block.ghz), ram := Round1(block.ram))
  }

  function Spread(ratio: real, before: real, after: real): real
    requires after != 0.0
  {
    ratio * before / after
  }

  /** The same vCPUs over other cores. */
  function Rescaled(ratio: Option<real>, before: real, after: real): Option<real> {
    if ratio.None? || before == 0.0 || after == 0.0 then ratio else Some(Round2(Spread(ratio.value, before, after)))
  }

  function Basis(full: bool, t: Totals, m: N1): real {
    if full then t.cores else m.cores
  }

  function RatioNode(n: Node, was: Node, oldTotals: Totals, oldN1: N1, t: Totals, m: N1): Node {
    n.(ratio := Rescaled(was.ratio, Basis(was.sizedFull, oldTotals, oldN1), Basis(was.sizedFull, t, m)),
       degraded := Rescaled(was.degraded, oldN1.cores, m.cores))
  }

  const TINY := 0.000000001

  function Percent(amount: real, full: real): int
    requires full != 0.0
  {
    RoundInt(amount / full * 100.0)
  }

  datatype Resource = Cpu | Ram | Disk

  /** The replication demand a bar stands for: its percentage of the old capacity. */
  function ReplicationOf(b: Bar): real
    requires b.demand.Some?
  {
    b.replication as real * b.demand.value.capacity / 100.0
  }

  predicate BarKept(b: Bar, full: real) {
    b.demand.None? || full == 0.0 || (-TINY < full - b.demand.value.capacity < TINY)
  }

  /** The same demand against another capacity; never clamped at 100. */
  function NewBar(b: Bar, kind: Resource, full: real, n1: real, sizedFull: bool): Bar {
    if BarKept(b, full) then b
    else
      var d := b.demand.value;
      Bar(Percent(d.current, full), Percent(d.total, full), Percent(d.snapshot, full),
          Percent(ReplicationOf(b), full),
          if kind == Disk || (kind == Cpu && sizedFull) then 0 else Percent(full - n1, full),
          Some(d.(capacity := Shown(kind, full))))
  }

  /** A capacity as its bar shows it. */
  function Shown(kind: Resource, full: real): real {
    match kind case Cpu => RoundInt(full) as real case Ram => Round1(full) case Disk => Round2(full)
  }

  function NewBarOpt(b: Option<Bar>, kind: Resource, full: real, n1: real, sizedFull: bool): Option<Bar> {
    if b.None? then None else Some(NewBar(b.value, kind, full, n1, sizedFull))
  }

  function NewBars(b: Option<Bars>, sizedFull: bool, t: Totals, m: N1): Option<Bars> {
    if b.None? then None
    else Some(Bars(NewBarOpt(b.value.cpu, Cpu, t.cores, m.cores, sizedFull),
                   NewBarOpt(b.value.ram, Ram, t.ram, m.ram, sizedFull),
                   NewBarOpt(b.value.storage, Disk, UsableOrZero(t), UsableOrZero(t), sizedFull)))
  }

  function NewIops(i: Option<Iops>, n: Node, hw: Hw): Option<Iops> {
    if i.None? || hw.storageChanged then None
    else if hw.nodesChanged && i.value.perNode.Some? then
      var per := i.value.perNode.value;
      Some(i.value.(total := Times(per, n.nodes),
                    n1 := Times(per, Max(HciOf(n) - |hw.layout|, if HciOf(n) == 1 then 1 else 0))))
    else i
  }

  /** The rebuilt figures, or the recommendation's own when the quote changes no hardware. */
  function Rebuilt(r: Rec, n: Node, s: Storage, hw: Hw): Rec {
    if !hw.changed then r.(node := n, storage := s)
    else
      var t := NewTotals(n, r.totals, hw);
      var m := NewN1(n, t, hw);
      Rec(RatioNode(n, r.node, r.totals, r.n1, t, m), s, t, m,
          NewBars(r.bars, r.node.sizedFull, t, m), NewIops(r.iops, n, hw))
  }

  predicate IsEmpty(q: Quote) {
    q.cpu == "" && q.cores == 0 && q.threads == 0 && q.ram == 0 && q.nodes == 0 && q.drives == [] && q.storageDesc == ""
  }

  function Applied(r: Rec, q: Option<Quote>, maxPer: int): Rec
    requires maxPer > 0
  {
    if q.None? || !r.node.validated || IsEmpty(q.value) then r
    else Rebuilt(r, QuotedNode(r.node, q.value, maxPer), QuotedStorage(r.storage, q.value),
                 HwFor(r.node, r.storage, q.value, maxPer))
  }

  // ── agreement with a direct build ─────────────────────────────────────────

  predicate Near(a: real, b: real, e: real) {
    -e <= a - b <= e
  }

  /** r times k gives back x, to e for each unit of k. */
  predicate GivesBack(r: real, k: real, x: real, e: real) {
    Near(r * k, x, e * k)
  }

  lemma RamLessReserve(n: Node, reservedRam: real)
    ensures n.usableRam + reservedRam - reservedRam == n.usableRam
  {
  }

  predicate TotalsAgree(t: Totals, d: Totals) {
    && t.cores == d.cores && t.threads == d.threads && t.raw == d.raw && t.usable == d.usable
    && Near(t.ghz, d.ghz, 0.055) && Near(t.ram, d.ram, 0.05)
  }

  predicate N1Agrees(m: N1, d: N1) {
    && m.cores == d.cores && m.threads == d.threads && m.usable == d.usable
    && Near(m.ghz, d.ghz, 0.05) && Near(m.ram, d.ram, 0.05)
  }

  lemma RoundingApart(ghz: real, ram: real)
    ensures Near(Round1(ghz), Round2(ghz), 0.055) && Near(Round1(Round2(ghz)), Round2(ghz), 0.05)
    ensures Near(Round1(ram), ram, 0.05)
  {
  }

  // ── consistency of a stored recommendation ────────────────────────────────

  /** Cluster figures are per-node figures times nodes; storage is its own drives re-laid-out. */
  predicate Consistent(r: Rec) {
    && r.node.layout != [] && Sum(r.node.layout) == r.node.nodes
    && ComputeAgrees(r.node, r.totals, r.n1, |r.node.layout|)
    && r.n1.usable == Round2(UsableOrZero(r.totals))
    && (r.storage.raw != 0.0 ==> StorageAgrees(r.storage, r.node.nodes, r.node.layout, r.totals))
  }

  predicate ComputeAgrees(n: Node, t: Totals, m: N1, clusters: int) {
    var hci, left := HciOf(n), Surviving(HciOf(n), clusters);
    && t.cores == Times(n.usableCores, hci) && t.threads == n.threads * hci
    && m.cores == Times(n.usableCores, left) && m.threads == n.threads * left
    && Near(t.ram, Times(n.usableRam, hci), 0.05) && Near(m.ram, Times(n.usableRam, left), 0.05)
  }

  predicate StorageAgrees(s: Storage, nodes: int, layout: seq<int>, t: Totals) {
    && t.raw == Some(Round2(Times(s.raw, nodes)))
    && t.usable == Some(Round2(QuotedUsable(s.raw, s.biggest, BaysOr2(s), layout)))
  }

  /** A size to three decimals, as the drive dialog stores it. */
  predicate Thousandth(x: real) {
    Round3(x) == x
  }

  /** Quoted drives are of such sizes, and there is at least one of them. */
  predicate DrivesKnown(q: Quote) {
    q.drives != [] ==> (forall i :: 0 <= i < |q.drives| ==> Thousandth(q.drives[i].tb)) && BaysOf(q.drives) != 0
  }

  /** What a quote says of storage in words alone leaves the stored disks true: the node count stays, or the bill of
      materials states what these disks come to. */
  predicate StorageFollows(r: Rec, q: Quote, maxPer: int)
    requires maxPer > 0
  {
    || q.drives != [] || q.storageDesc == "" || r.storage.raw == 0.0
    || if StorageFromBom(q) then BomStatesDisks(r, q, maxPer) else !NodesDiffer(r.node, q)
  }

  /** The bill of materials states the usable storage of its own cluster. */
  predicate StorageFromBom(q: Quote) {
    q.bom.Some? && "node_count" !in q.manual && q.bom.value.usableStorage != 0.0
  }

  predicate BomStatesDisks(r: Rec, q: Quote, maxPer: int)
    requires maxPer > 0 && StorageFromBom(q)
  {
    var n, s, bom := QuotedNode(r.node, q, maxPer), r.storage, q.bom.value;
    && Round2(bom.usableStorage) == Round2(QuotedUsable(s.raw, s.biggest, BaysOr2(s), n.layout))
    && if bom.rawStorage.Some? then Round2(bom.rawStorage.value) == Round2(Times(s.raw, n.nodes))
      else !NodesDiffer(r.node, q)
  }

  /** No disks on record, or more than two decimals can hide. */
  predicate Measurable(s: Storage) {
    s.raw == 0.0 || s.raw > 0.01
  }

  lemma NodesShow(raw: real, a: int, b: int)
    requires raw > 0.01 && a != b
    ensures Round2(Times(raw, a)) != Round2(Times(raw, b))
  {
    var more, less := if a > b then a else b, if a > b then b else a;
    assert Times(raw, more) - Times(raw, less) == raw * (more - less) as real;
    OneNodeShows(raw, (more - less) as real);
  }

  lemma OneNodeShows(raw: real, nodes: real)
    requires raw > 0.01 && nodes >= 1.0
    ensures raw * nodes > 0.01
  {
    assert raw * nodes - raw == raw * (nodes - 1.0) >= 0.0;
  }

  lemma ThousandthIs(x: real, k: int)
    requires x * 1000.0 == k as real
    ensures Thousandth(x)
  {
  }

  /** Raw capacity per node is then a whole number of thousandths too. */
  lemma {:induction false} RawThousandths(drives: seq<Drive>)
    requires forall i :: 0 <= i < |drives| ==> Thousandth(drives[i].tb)
    ensures Thousandth(RawOf(drives))
  {
    if drives == [] {
      ThousandthIs(0.0, 0);
    } else {
      var front, last := drives[..|drives|-1], drives[|drives|-1];
      RawThousandths(front);
      assert Thousandth(last.tb);
      OneMoreDrive(RawOf(front), last.tb, last.qty);
    }
  }

  lemma OneMoreDrive(raw: real, tb: real, qty: int)
    requires Thousandth(raw) && Thousandth(tb)
    ensures Thousandth(raw + Times(tb, qty))
  {
    var k, m := RoundInt(raw * 1000.0), RoundInt(tb * 1000.0);
    assert raw * 1000.0 == k as real && tb * 1000.0 == m as real;
    Distributes(tb, m, qty);
    ThousandthIs(raw + Times(tb, qty), k + m * qty);
  }

  lemma Distributes(tb: real, m: int, qty: int)
    requires tb * 1000.0 == m as real
    ensures Times(tb, qty) * 1000.0 == (m * qty) as real
  {
    assert (m * qty) as real == m as real * qty as real;
  }

  /** The rebuild counted as many clusters as the result shows. */
  predicate SameClusters(n: Node, q: Quote, maxPer: int)
    requires maxPer > 0
  {
    |QuotedLayout(n, q, maxPer)| == |QuotedNode(n, q, maxPer).layout|
  }

  /** A caller can tell: the node count changes, no layout comes from the bill of materials, or it has as many
      clusters. */
  predicate ClustersKept(n: Node, q: Quote) {
    NodesDiffer(n, q) || !LayoutFromBom(n, q) || |q.bom.value.layout| == |n.layout|
  }

  lemma ClustersPart(n: Node, q: Quote, maxPer: int)
    requires maxPer > 0 && n.layout != []
    ensures SameClusters(n, q, maxPer) <==> ClustersKept(n, q)
  {
  }

  lemma QuotedLayoutSums(n: Node, q: Quote, maxPer: int)
    requires maxPer > 0 && n.layout != [] && Sum(n.layout) == n.nodes
    ensures QuotedNode(n, q, maxPer).layout != [] && QuotedLayout(n, q, maxPer) != []
    ensures Sum(QuotedLayout(n, q, maxPer)) == TotalNodes(n, q) == QuotedNode(n, q, maxPer).nodes
    ensures Sum(QuotedNode(n, q, maxPer).layout) == TotalNodes(n, q)
  {
    LayoutMeaning(TotalNodes(n, q), maxPer);
  }

  lemma ComputeRebuilt(n: Node, was: Totals, hw: Hw)
    ensures var t := NewTotals(n, was, hw); ComputeAgrees(n, t, NewN1(n, t, hw), |hw.layout|)
  {
  }

  /** The quoted disks, laid out as the result has them, are what the new totals say. */
  predicate DisksTotalled(r: Rec, q: Quote, maxPer: int)
    requires maxPer > 0
  {
    var s, n := QuotedStorage(r.storage, q), QuotedNode(r.node, q, maxPer);
    StorageAgrees(s, n.nodes, n.layout, NewTotals(n, r.totals, HwFor(r.node, r.storage, q, maxPer)))
  }

  lemma StorageRebuilt(r: Rec, q: Quote, maxPer: int)
    requires maxPer > 0 && Consistent(r) && DrivesKnown(q) && ClustersKept(r.node, q) && StorageFollows(r, q, maxPer)
    ensures QuotedStorage(r.storage, q).raw != 0.0 ==> DisksTotalled(r, q, maxPer)
  {
    var n, hw := QuotedNode(r.node, q, maxPer), HwFor(r.node, r.storage, q, maxPer);
    QuotedLayoutSums(r.node, q, maxPer);
    ClustersPart(r.node, q, maxPer);
    if q.drives != [] {
      RawThousandths(q.drives);
    }
    if hw.raw.Some? {
      UsableByCount(hw.raw.value, hw.biggest, hw.bays, hw.layout, n.layout);
    }
  }

  lemma StorageLost(r: Rec, q: Quote, maxPer: int)
    requires maxPer > 0 && Consistent(r) && Measurable(r.storage) && !StorageFollows(r, q, maxPer)
    ensures QuotedStorage(r.storage, q).raw != 0.0 && !DisksTotalled(r, q, maxPer)
  {
    var n := QuotedNode(r.node, q, maxPer);
    if n.nodes != r.node.nodes {
      NodesShow(r.storage.raw, n.nodes, r.node.nodes);
    }
  }

  /** A consistent recommendation stays consistent under every quote that keeps the cluster count and whose storage
      follows. */
  lemma KeepsConsistency(r: Rec, q: Quote, maxPer: int)
    requires maxPer > 0 && Consistent(r) && DrivesKnown(q) && ClustersKept(r.node, q) && StorageFollows(r, q, maxPer)
    ensures Consistent(Applied(r, Some(q), maxPer))
  {
    var n, hw := QuotedNode(r.node, q, maxPer), HwFor(r.node, r.storage, q, maxPer);
    if r.node.validated && !IsEmpty(q) && hw.changed {
      QuotedLayoutSums(r.node, q, maxPer);
      ClustersPart(r.node, q, maxPer);
      ComputeRebuilt(n, r.totals, hw);
      StorageRebuilt(r, q, maxPer);
    }
  }

  /** With cores to count and a node to spare per cluster, it stays consistent only then. */
  lemma ConsistentExactly(r: Rec, q: Quote, maxPer: int)
    requires maxPer > 0 && Consistent(r) && DrivesKnown(q) && Measurable(r.storage)
    requires r.node.validated && HwFor(r.node, r.storage, q, maxPer).changed
    requires var n := QuotedNode(r.node, q, maxPer);
             && n.usableCores > 0.0 && HciOf(n) > 1
             && HciOf(n) >= |n.layout| && HciOf(n) >= |QuotedLayout(r.node, q, maxPer)|
    ensures Consistent(Applied(r, Some(q), maxPer)) <==> ClustersKept(r.node, q) && StorageFollows(r, q, maxPer)
  {
    ChangedIsNotEmpty(r, q, maxPer);
    if ClustersKept(r.node, q) && StorageFollows(r, q, maxPer) {
      KeepsConsistency(r, q, maxPer);
    } else if ClustersKept(r.node, q) {
      StorageLost(r, q, maxPer);
    } else {
      ClustersPart(r.node, q, maxPer);
      CountShows(QuotedNode(r.node, q, maxPer), r.totals, HwFor(r.node, r.storage, q, maxPer));
    }
  }

  lemma CountShows(n: Node, was: Totals, hw: Hw)
    requires n.usableCores > 0.0 && HciOf(n) >= |n.layout| && HciOf(n) >= |hw.layout| && HciOf(n) > 1
    requires |hw.layout| != |n.layout|
    ensures var t := NewTotals(n, was, hw); !ComputeAgrees(n, t, NewN1(n, t, hw), |n.layout|)
  {
    OneCountOnly(n.usableCores, HciOf(n) - |hw.layout|, HciOf(n) - |n.layout|);
  }

  // ── agreement of every quote with a direct build ─────────────────────────

  /** The quoted cluster as a direct build is given it: the result's own nodes, layout and disks, and physical figures
      whose usable parts are the result's. */
  function DirectOf(n: Node, s: Storage, reservedCores: real, reservedRam: real, ghz: real): Capacity {
    DirectBuild(Build(HciOf(n), n.nodes, n.layout, n.usableCores + reservedCores, n.threads, ghz,
                      n.usableRam + reservedRam, s.raw, s.biggest, BaysOr2(s)),
                reservedCores, reservedRam)
  }

  lemma DirectFigures(n: Node, s: Storage, hw: Hw, reservedCores: real, reservedRam: real, ghz: real)
    requires Sum(n.layout) == n.nodes && NodeClock(ghz, n.usableCores + reservedCores) == GhzOf(n, hw)
    ensures var direct := DirectOf(n, s, reservedCores, reservedRam, ghz);
            var usable := QuotedUsable(s.raw, s.biggest, BaysOr2(s), n.layout); var hci := HciOf(n);
            && direct.totals == Totals(Times(n.usableCores, hci), n.threads * hci, Round2(Times(GhzOf(n, hw), hci)),
                                       Times(n.usableRam, hci), None, Some(Round2(Times(s.raw, n.nodes))),
                                       Some(Round2(usable)))
            && direct.n1 == NMinusOne(hci, |n.layout|, n.usableCores, n.threads, GhzOf(n, hw), n.usableRam, usable)
  {
    RamLessReserve(n, reservedRam);
  }

  /** The rebuilt figures are those of a direct build of the rebuilt node's own usable figures, whatever the platform
      keeps. */
  lemma ResultAgrees(r: Rec, q: Quote, maxPer: int, reservedCores: real, reservedRam: real, ghz: real)
    requires maxPer > 0 && r.node.validated && Consistent(r) && DrivesKnown(q)
    requires ClustersKept(r.node, q) && StorageFollows(r, q, maxPer)
    requires QuotedStorage(r.storage, q).raw != 0.0 && HwFor(r.node, r.storage, q, maxPer).changed
    requires var hw, n := HwFor(r.node, r.storage, q, maxPer), QuotedNode(r.node, q, maxPer);
             NodeClock(ghz, n.usableCores + reservedCores) == GhzOf(n, hw)
    ensures var n, s, out := QuotedNode(r.node, q, maxPer), QuotedStorage(r.storage, q), Applied(r, Some(q), maxPer);
            var direct := DirectOf(n, s, reservedCores, reservedRam, ghz);
            TotalsAgree(out.totals, direct.totals) && N1Agrees(out.n1, direct.n1)
  {
    var n, s, hw := QuotedNode(r.node, q, maxPer), QuotedStorage(r.storage, q), HwFor(r.node, r.storage, q, maxPer);
    var usable := QuotedUsable(s.raw, s.biggest, BaysOr2(s), n.layout);
    ChangedIsNotEmpty(r, q, maxPer);
    QuotedLayoutSums(r.node, q, maxPer);
    ClustersPart(r.node, q, maxPer);
    StorageRebuilt(r, q, maxPer);
    DirectFigures(n, s, hw, reservedCores, reservedRam, ghz);
    RebuiltFigures(r, n, s, hw, usable);
  }

  lemma ChangedIsNotEmpty(r: Rec, q: Quote, maxPer: int)
    requires maxPer > 0 && HwFor(r.node, r.storage, q, maxPer).changed
    ensures !IsEmpty(q)
  {
  }

  lemma RebuiltFigures(r: Rec, n: Node, s: Storage, hw: Hw, usable: real)
    requires hw.changed && |hw.layout| == |n.layout|
    requires var t := NewTotals(n, r.totals, hw);
             t.raw == Some(Round2(Times(s.raw, n.nodes))) && t.usable == Some(Round2(usable))
    ensures var out := Rebuilt(r, n, s, hw); var hci := HciOf(n);
            && TotalsAgree(out.totals,
                           Totals(Times(n.usableCores, hci), n.threads * hci, Round2(Times(GhzOf(n, hw), hci)),
                                  Times(n.usableRam, hci), None, Some(Round2(Times(s.raw, n.nodes))),
                                  Some(Round2(usable))))
            && N1Agrees(out.n1, NMinusOne(hci, |n.layout|, n.usableCores, n.threads, GhzOf(n, hw), n.usableRam, usable))
  {
    RoundedStays(usable);
    var hci, left := HciOf(n), Surviving(HciOf(n), |n.layout|);
    RoundingApart(Times(GhzOf(n, hw), hci), Times(n.usableRam, hci));
    RoundingApart(Times(GhzOf(n, hw), left), Times(n.usableRam, left));
  }

  /** With cores to count and a node to spare per cluster it agrees only then. */
  lemma ResultAgreesExactly(r: Rec, q: Quote, maxPer: int, reservedCores: real, reservedRam: real, ghz: real)
    requires maxPer > 0 && r.node.validated && Consistent(r) && DrivesKnown(q) && Measurable(r.storage)
    requires QuotedStorage(r.storage, q).raw != 0.0 && HwFor(r.node, r.storage, q, maxPer).changed
    requires var hw, n := HwFor(r.node, r.storage, q, maxPer), QuotedNode(r.node, q, maxPer);
             && NodeClock(ghz, n.usableCores + reservedCores) == GhzOf(n, hw)
             && n.usableCores > 0.0 && HciOf(n) >= |n.layout| && HciOf(n) >= |hw.layout| && HciOf(n) > 1
    ensures var n, s, out := QuotedNode(r.node, q, maxPer), QuotedStorage(r.storage, q), Applied(r, Some(q), maxPer);
            var direct := DirectOf(n, s, reservedCores, reservedRam, ghz);
            TotalsAgree(out.totals, direct.totals) && N1Agrees(out.n1, direct.n1)
            <==> ClustersKept(r.node, q) && StorageFollows(r, q, maxPer)
  {
    var n, s, hw := QuotedNode(r.node, q, maxPer), QuotedStorage(r.storage, q), HwFor(r.node, r.storage, q, maxPer);
    ChangedIsNotEmpty(r, q, maxPer);
    QuotedLayoutSums(r.node, q, maxPer);
    DirectFigures(n, s, hw, reservedCores, reservedRam, ghz);
    if ClustersKept(r.node, q) && StorageFollows(r, q, maxPer) {
      ResultAgrees(r, q, maxPer, reservedCores, reservedRam, ghz);
    } else if ClustersKept(r.node, q) {
      StorageLost(r, q, maxPer);
    } else {
      ClustersPart(r.node, q, maxPer);
      OneCountOnly(n.usableCores, HciOf(n) - |hw.layout|, HciOf(n) - |n.layout|);
    }
  }

  /** Ten nodes shown as two clusters of five, quoted with more RAM by a bill of materials that lays them out in three:
      the rebuilt N-1 holds back three nodes, the result still shows two clusters. */
  lemma QuotedLayoutSlips() returns (r: Rec, q: Quote)
    ensures Consistent(r) && q.drives == [] && q.storageDesc == "" && r.node.validated && r.node.layout == [5, 5]
    ensures Applied(r, Some(q), 8).node.layout == [5, 5] && !Consistent(Applied(r, Some(q), 8))
  {
    var n := Node("", 20.0, 16.0, 40, 2.0, None, 256.0, 240.0, 10, 10, [5, 5], false, 0, false, true, None, None);
    r := Rec(n, Storage(0.0, 0.0, 0), Totals(160.0, 400, 400.0, 2400.0, None, None, None),
             N1(128.0, 320, 320.0, 1920.0, 0.0), None, None);
    q := Quote("", 0, 0, 512, 0, [], "", {}, Some(Bom(10, 10, None, [4, 3, 3], 0.0, 0.0, 496.0, 0.0, None)));
    assert [5, 5][1..] == [5] && [5][1..] == [] && Sum([5]) == 5 && Sum([5, 5]) == 10;
    assert [4, 3, 3][1..] == [3, 3] && [3, 3][1..] == [3] && [3][1..] == [] && Sum([3]) == 3 && Sum([3, 3]) == 6;
    assert LayoutFromBom(n, q) && QuotedLayout(n, q, 8) == [4, 3, 3];
    assert QuotedNode(n, q, 8).layout == [5, 5];
    ConsistentExactly(r, q, 8);
  }

  /** Three nodes with two 2 TB disks each, quoted as five nodes with their storage in words: the totals keep three
      nodes' storage. */
  lemma QuotedWordsSlip() returns (r: Rec, q: Quote)
    ensures Consistent(r) && r.node.validated && q.drives == [] && q.storageDesc != "" && q.nodes == 5
    ensures var out := Applied(r, Some(q), 8); out.node.nodes == 5 && out.totals.raw == Some(12.0) && !Consistent(out)
  {
    var n := Node("", 20.0, 16.0, 40, 2.0, None, 256.0, 240.0, 3, 3, [3], false, 0, false, true, None, None);
    assert [3][1..] == [] && Sum([3]) == 3 && ClusterUsable(4.0, 2.0, [3]) == 5.0;
    assert Round2(12.0) == 12.0 && Round2(5.0) == 5.0;
    r := Rec(n, Storage(4.0, 2.0, 2), Totals(48.0, 120, 120.0, 720.0, None, Some(12.0), Some(5.0)),
             N1(32.0, 80, 80.0, 480.0, 5.0), None, None);
    q := Quote("", 0, 0, 0, 5, [], "2 x 2 TB", {"node_count"}, None);
    QuotedLayoutSums(n, q, 8);
    StorageLost(r, q, 8);
  }

  lemma OneCountOnly(cores: real, a: int, b: int)
    requires cores > 0.0 && a != b
    ensures Times(cores, a) != Times(cores, b)
  {
    assert cores * a as real - cores * b as real == cores * (a - b) as real;
  }

  // ── ratio, GHz and demand ─────────────────────────────────────────────────

  /** Ratio times basis cores is conserved to half a hundredth of a vCPU per new core. */
  lemma RatioConserved(ratio: real, before: real, after: real)
    requires before != 0.0 && after > 0.0
    ensures Rescaled(Some(ratio), before, after).Some?
    ensures GivesBack(Rescaled(Some(ratio), before, after).value, after, Vcpus(ratio, before), 0.005)
  {
    SpreadWithin(ratio, before, after, Round2(Spread(ratio, before, after)));
  }

  lemma SpreadWithin(ratio: real, before: real, after: real, r: real)
    requires after > 0.0 && Near(r, Spread(ratio, before, after), 0.005)
    ensures GivesBack(r, after, Vcpus(ratio, before), 0.005)
  {
    Within(ratio * before, after, r, 0.005);
  }

  function Vcpus(ratio: real, basis: real): real {
    ratio * basis
  }

  /** A rounded quotient times its divisor is the dividend, to the rounding error scaled. */
  lemma Within(x: real, k: real, r: real, e: real)
    requires k > 0.0 && -e <= r - x / k <= e
    ensures GivesBack(r, k, x, e)
  {
    var exact := x / k;
    assert exact * k == x;
    Widen(r, exact, e, k);
  }

  lemma Widen(r: real, x: real, e: real, k: real)
    requires -e <= r - x <= e && k > 0.0
    ensures -(e * k) <= r * k - x * k <= e * k
  {
    assert (r - x) * k <= e * k && (-e) * k <= (r - x) * k;
  }

  /** The cores a ratio is measured against: the whole cluster's when it was sized full, else those with a node down. */
  function RatioCores(r: Rec): real {
    if r.node.sizedFull then r.totals.cores else r.n1.cores
  }

  /** So the workload's vCPUs read off the rebuilt record are the sized ones, with a node down as well. */
  lemma VcpusConserved(r: Rec, q: Quote, maxPer: int)
    requires maxPer > 0 && r.node.validated && HwFor(r.node, r.storage, q, maxPer).changed
    ensures var out := Applied(r, Some(q), maxPer);
            && (r.node.ratio.Some? && RatioCores(r) != 0.0 && RatioCores(out) > 0.0 ==>
                && out.node.ratio.Some?
                && GivesBack(out.node.ratio.value, RatioCores(out), Vcpus(r.node.ratio.value, RatioCores(r)), 0.005))
            && (r.node.degraded.Some? && r.n1.cores != 0.0 && out.n1.cores > 0.0 ==>
                && out.node.degraded.Some?
                && GivesBack(out.node.degraded.value, out.n1.cores, Vcpus(r.node.degraded.value, r.n1.cores), 0.005))
  {
    ChangedIsNotEmpty(r, q, maxPer);
    var out := Applied(r, Some(q), maxPer);
    assert RatioCores(out) == Basis(r.node.sizedFull, out.totals, out.n1);
    if r.node.ratio.Some? && RatioCores(r) != 0.0 && RatioCores(out) > 0.0 {
      RatioConserved(r.node.ratio.value, RatioCores(r), RatioCores(out));
    }
    if r.node.degraded.Some? && r.n1.cores != 0.0 && out.n1.cores > 0.0 {
      RatioConserved(r.node.degraded.value, r.n1.cores, out.n1.cores);
    }
  }

  /** Scaled threads stay in proportion to the cores, to half a thread a node. */
  lemma ThreadsPerCoreKept(n: Node, q: Quote)
    requires q.threads == 0 && q.cores != 0 && "cores_per_node" in q.manual && n.cores > 0.0
    ensures Near(QuotedThreads(n, q) as real * n.cores, Times(q.cores as real, n.threads), 0.5 * n.cores)
  {
    Within(Times(q.cores as real, n.threads), n.cores, QuotedThreads(n, q) as real, 0.5);
    assert GivesBack(QuotedThreads(n, q) as real, n.cores, Times(q.cores as real, n.threads), 0.5);
  }

  /** The clock shown per core gives back the node's GHz to 0.0005 per core. */
  lemma GhzShown(n: Node, q: Quote, maxPer: int)
    requires maxPer > 0 && CpuDiffers(n, q) && BomGhz(q).Some? && QuotedCpu(n, q).cores > 0.0
    ensures var out := QuotedNode(n, q, maxPer); GivesBack(out.ghz, out.cores, BomGhz(q).value, 0.0005)
  {
    var cores := QuotedCpu(n, q).cores;
    Within(BomGhz(q).value, cores, Round3(BomGhz(q).value / cores), 0.0005);
  }

  /** A bar's percentage of the capacity is its amount, to half a percent of the capacity. */
  predicate Reads(percent: int, full: real, amount: real) {
    Near(percent as real * full / 100.0, amount, full / 200.0)
  }

  lemma PercentReads(amount: real, full: real)
    requires full > 0.0
    ensures Reads(Percent(amount, full), full, amount)
  {
    var p := Percent(amount, full) as real;
    Within(amount, full, p / 100.0, 0.005);
    assert p / 100.0 * full == p * full / 100.0;
  }

  /** The replication demand is its percentage of the capacity the bar was drawn against. */
  lemma ReplicationIs(b: Bar)
    requires b.demand.Some?
    ensures ReplicationOf(b) * 100.0 == b.replication as real * b.demand.value.capacity
  {
  }

  /** Every bar keeps its demand; a redrawn bar shows that demand against the quoted capacity, replication included. */
  lemma DemandUnchanged(b: Bar, kind: Resource, full: real, n1: real, sizedFull: bool)
    requires b.demand.Some? && full >= 0.0
    ensures var out := NewBar(b, kind, full, n1, sizedFull); var d := b.demand.value;
            var kept := full == 0.0 || (-0.000000001 < full - d.capacity < 0.000000001);
            && out.demand.Some?
            && out.demand.value.(capacity := 0.0) == d.(capacity := 0.0)
            && (kept ==> out == b)
            && (!kept ==>
                && Reads(out.current, full, d.current) && Reads(out.total, full, d.total)
                && Reads(out.snapshot, full, d.snapshot)
                && Reads(out.replication, full, ReplicationOf(b))
                && (if kind == Disk || (kind == Cpu && sizedFull) then out.haReserve == 0
                  else Reads(out.haReserve, full, full - n1))
                && Near(out.demand.value.capacity, full, 0.5))
  {
    if !BarKept(b, full) {
      var d := b.demand.value;
      PercentReads(d.current, full);
      PercentReads(d.total, full);
      PercentReads(d.snapshot, full);
      PercentReads(ReplicationOf(b), full);
      PercentReads(full - n1, full);
    }
  }

  /** A quote of the very figures already sized, disks unmentioned, changes no figure at all. */
  lemma SameHardwareChangesNothing(r: Rec, q: Quote, maxPer: int)
    requires maxPer > 0
    requires q.cpu in ["", r.node.cpu] && q.ram as real in [0.0, r.node.ram] && q.nodes in [0, r.node.nodes]
    requires q.cores as real in [0.0, r.node.cores] && q.threads in [0, r.node.threads]
    requires q.drives == [] && q.storageDesc == ""
    ensures Applied(r, Some(q), maxPer) == r
  {
    SameThreads(r.node, q);
  }

  lemma SameThreads(n: Node, q: Quote)
    requires q.cores as real in [0.0, n.cores] && q.threads in [0, n.threads]
    ensures !ThreadsDiffer(n, q)
  {
    if q.threads == 0 && q.cores != 0 && "cores_per_node" in q.manual {
      assert Times(q.cores as real, n.threads) / n.cores == n.threads as real;
    }
  }
}
