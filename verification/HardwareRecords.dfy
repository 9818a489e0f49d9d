/** The quoted hardware written step by step onto a copy of the stored record. */
module HardwareRecords {
  import opened Text
  import opened Rounding
  import opened HardwareFigures
  import opened HardwareOverride

  /** A nested dictionary that may be shared between records. */
  class Nested<T> {
    var v: T

    constructor (v: T)
      ensures this.v == v
    {
      this.v := v;
    }
  }

  class BarRecord {
    var current: int
    var total: int
    var snapshot: int
    var replication: int
    var haReserve: int
    var demand: Nested?<Demand>

    constructor (b: BarRecord)
      ensures current == b.current && total == b.total && snapshot == b.snapshot
      ensures replication == b.replication && haReserve == b.haReserve && demand == b.demand
    {
      current, total, snapshot := b.current, b.total, b.snapshot;
      replication, haReserve, demand := b.replication, b.haReserve, b.demand;
    }

    function View(): Bar
      reads this, demand
    {
      Bar(current, total, snapshot, replication, haReserve, if demand == null then None else Some(demand.v))
    }
  }

  function BarView(b: BarRecord?): Option<Bar>
    reads b, if b == null then null else b.demand
  {
    if b == null then None else Some(b.View())
  }

  class BarsRecord {
    var cpu: BarRecord?
    var ram: BarRecord?
    var storage: BarRecord?

    constructor (cpu: BarRecord?, ram: BarRecord?, storage: BarRecord?)
      ensures this.cpu == cpu && this.ram == ram && this.storage == storage
    {
      this.cpu, this.ram, this.storage := cpu, ram, storage;
    }

    function View(): Bars
      reads this, cpu, ram, storage
      reads if cpu == null then null else cpu.demand
      reads if ram == null then null else ram.demand
      reads if storage == null then null else storage.demand
    {
      Bars(BarView(cpu), BarView(ram), BarView(storage))
    }
  }

  function BarsView(b: BarsRecord?): Option<Bars>
    reads b
    reads if b == null then {} else {b.cpu, b.ram, b.storage}
    reads BarSet(b)
  {
    if b == null then None else Some(b.View())
  }

  function IopsView(i: Nested?<Iops>): Option<Iops>
    reads i
  {
    if i == null then None else Some(i.v)
  }

  function BarSet(b: BarsRecord?): set<object>
    reads b
    reads if b == null then {} else {b.cpu, b.ram, b.storage}
  {
    if b == null then {} else {b} + BarParts(b.cpu) + BarParts(b.ram) + BarParts(b.storage)
  }

  function BarParts(b: BarRecord?): set<object>
    reads b
  {
    if b == null then {} else if b.demand == null then {b} else {b, b.demand}
  }

  class Record {
    var node: Node
    var storage: Nested<Storage>
    var totals: Nested<Totals>
    var n1: Nested<N1>
    var bars: BarsRecord?
    var iops: Nested?<Iops>

    /** A shallow copy: the nested dictionaries are shared. */
    constructor (r: Record)
      ensures node == r.node && storage == r.storage && totals == r.totals && n1 == r.n1
      ensures bars == r.bars && iops == r.iops
    {
      node, storage, totals, n1, bars, iops := r.node, r.storage, r.totals, r.n1, r.bars, r.iops;
    }

    function View(): Rec
      reads this, storage, totals, n1, iops, bars
      reads if bars == null then {} else {bars.cpu, bars.ram, bars.storage}
      reads BarSet(bars)
    {
      Rec(node, storage.v, totals.v, n1.v, BarsView(bars), IopsView(iops))
    }
  }

  // ── per-node figures ──────────────────────────────────────────────────────

  method QuoteCpu(out: Record, q: Quote) returns (changed: bool)
    modifies out`node
    ensures changed == CpuDiffers(old(out.node), q)
    ensures out.node == if changed then QuotedCpu(old(out.node), q) else old(out.node)
  {
    var was := out.node;
    changed := false;
    if q.cpu != "" && q.cpu != was.cpu {
      out.node := out.node.(cpu := q.cpu);
      changed := true;
    }
    if q.cores != 0 && q.cores as real != was.cores {
      var overhead := Over(was.cores, was.usableCores);
      out.node := out.node.(cores := q.cores as real, usableCores := Over(q.cores as real, overhead));
      changed := true;
    }
    var threads := QuotedThreads(was, q);
    if threads != 0 && threads != was.threads {
      out.node := out.node.(threads := threads);
      changed := true;
    }
  }

  method ApplyCpu(out: Record, q: Quote) returns (changed: bool, ghz: Option<real>, perf: Option<real>)
    modifies out`node
    ensures out.node == CpuNode(old(out.node), q) && changed == CpuDiffers(old(out.node), q)
    ensures ghz == NodeGhz(old(out.node), q) && perf == NodePerf(old(out.node), q)
  {
    var was := out.node;
    changed := QuoteCpu(out, q);
    if changed {
      ghz, perf := BomGhz(q), BomPerf(q);
      if ghz.Some? && out.node.cores != 0.0 {
        out.node := out.node.(ghz := Round3(ghz.value / out.node.cores));
      }
      out.node := out.node.(perf := if perf.Some? then Some(Round1(perf.value)) else None);
    } else {
      ghz := if was.ghz != 0.0 && was.cores != 0.0 then Some(NodeClock(was.ghz, was.cores)) else None;
      perf := was.perf;
    }
  }

  method ApplyDrives(out: Record, q: Quote) returns (raw: real, biggest: real, bays: int)
    requires q.drives != []
    modifies out`storage
    ensures fresh(out.storage) && out.storage.v == QuotedStorage(old(out.storage.v), q)
    ensures raw == RawOf(q.drives) && biggest == BiggestOf(q.drives) && bays == BaysOf(q.drives)
  {
    raw, biggest, bays := 0.0, q.drives[0].tb, 0;
    for i := 0 to |q.drives|
      invariant raw == RawOf(q.drives[..i]) && bays == BaysOf(q.drives[..i])
      invariant biggest == BiggestOf(if i == 0 then q.drives[..1] else q.drives[..i])
    {
      assert q.drives[..i+1][..i] == q.drives[..i];
      var d := q.drives[i];
      raw, bays := raw + Times(d.tb, d.qty), bays + d.qty;
      if d.tb > biggest {
        biggest := d.tb;
      }
    }
    assert q.drives[..|q.drives|] == q.drives;
    out.storage := new Nested(Storage(Round3(raw), biggest, bays));
  }

  method ApplyHardware(out: Record, rec: Record, q: Quote, maxPer: int) returns (hw: Hw)
    requires maxPer > 0 && out != rec && out.node == rec.node && out.storage == rec.storage
    modifies out`node, out`storage
    ensures out.node == QuotedNode(rec.node, q, maxPer)
    ensures fresh(out.storage) && out.storage.v == QuotedStorage(rec.storage.v, q)
    ensures hw == HwFor(rec.node, rec.storage.v, q, maxPer)
  {
    var was := rec.node;
    var changed, ghz, perf := ApplyCpu(out, q);
    if RamDiffers(was, q) {
      out.node := out.node.(ram := q.ram as real, usableRam := UsableRam(was, q));
      changed := true;
    }
    var layout := QuotedLayout(was, q, maxPer);
    var nodesChanged := NodesDiffer(was, q);
    if nodesChanged {
      out.node := out.node.(nodes := q.nodes, hci := QuotedHci(was, q), single := q.nodes == 1, layout := layout);
      changed := true;
    }
    hw := Hw(changed, ghz, perf, nodesChanged, false, None, 0.0, 0, layout, None, None);
    var storage := rec.storage.v;
    if q.drives != [] {
      var raw, biggest, bays := ApplyDrives(out, q);
      hw := hw.(raw := Some(raw), biggest := biggest, bays := bays, storageChanged := true, changed := true);
    } else {
      out.storage := new Nested(storage);
      if q.storageDesc != "" {
        if NodesFromBom(q) && q.bom.value.usableStorage != 0.0 {
          hw := hw.(storageUsable := Some(q.bom.value.usableStorage), storageRaw := q.bom.value.rawStorage,
                    storageChanged := true, changed := true);
        }
      } else if nodesChanged && storage.raw != 0.0 {
        hw := hw.(raw := Some(storage.raw), biggest := storage.biggest, bays := BaysOr2(storage));
      }
    }
  }

  // ── the rebuild ───────────────────────────────────────────────────────────

  method RebuildCluster(out: Record, rec: Record, hw: Hw)
    requires out != rec
    modifies out`totals, out`n1
    ensures fresh(out.totals) && out.totals.v == NewTotals(out.node, rec.totals.v, hw)
    ensures fresh(out.n1) && out.n1.v == NewN1(out.node, out.totals.v, hw)
  {
    var n := out.node;
    var hci := HciOf(n);
    var ghz := if hw.ghz.Some? then hw.ghz.value else NodeClock(n.ghz, n.cores);
    var totals := new Nested(rec.totals.v);
    totals.v := totals.v.(cores := Times(n.usableCores, hci), threads := n.threads * hci,
                          ghz := Round1(Times(ghz, hci)), ram := Round1(Times(n.usableRam, hci)),
                          perf := if hw.perf.Some? then Some(Round1(Times(hw.perf.value, hci))) else None);
    if hw.raw.Some? {
      var usable := QuotedUsable(hw.raw.value, hw.biggest, hw.bays, hw.layout);
      totals.v := totals.v.(raw := Some(Round2(Times(hw.raw.value, n.nodes))), usable := Some(Round2(usable)));
    } else if hw.storageUsable.Some? {
      totals.v := totals.v.(usable := Some(Round2(hw.storageUsable.value)));
      if hw.storageRaw.Some? {
        totals.v := totals.v.(raw := Some(Round2(hw.storageRaw.value)));
      }
    }
    out.totals := totals;
    var block := NMinusOne(hci, |hw.layout|, n.usableCores, n.threads, ghz, n.usableRam, UsableOrZero(totals.v));
    out.n1 := new Nested(block.(ghz := Round1(block.ghz), ram := Round1(block.ram)));
  }

  method RebuildRatio(out: Record, rec: Record)
    requires out != rec
    modifies out`node
    ensures out.node == RatioNode(old(out.node), rec.node, rec.totals.v, rec.n1.v, out.totals.v, out.n1.v)
  {
    var full := rec.node.sizedFull;
    var before := if full then rec.totals.v.cores else rec.n1.v.cores;
    var after := if full then out.totals.v.cores else out.n1.v.cores;
    out.node := out.node.(ratio := Rescaled(rec.node.ratio, before, after),
                          degraded := Rescaled(rec.node.degraded, rec.n1.v.cores, out.n1.v.cores));
  }

  /** A new bar and a new demand block, or the very bar it was given. */
  method RebuildBar(b: BarRecord?, kind: Resource, full: real, n1: real, sizedFull: bool) returns (bar: BarRecord?)
    ensures BarView(bar) == NewBarOpt(old(BarView(b)), kind, full, n1, sizedFull)
    ensures bar == b || (bar != null && fresh(bar) && bar.demand != null && fresh(bar.demand))
  {
    if b == null || BarKept(b.View(), full) {
      return b;
    }
    var d := b.demand.v;
    var replication := ReplicationOf(b.View());
    bar := new BarRecord(b);
    bar.current, bar.total, bar.snapshot := Percent(d.current, full), Percent(d.total, full), Percent(d.snapshot, full);
    bar.replication := Percent(replication, full);
    bar.haReserve := if kind == Disk || (kind == Cpu && sizedFull) then 0 else Percent(full - n1, full);
    bar.demand := new Nested(d.(capacity := Shown(kind, full)));
  }

  method RebuildBars(was: BarsRecord, t: Totals, m: N1, full: bool) returns (bars: BarsRecord)
    ensures fresh(bars) && Some(bars.View()) == NewBars(Some(was.View()), full, t, m)
  {
    var cpu := RebuildBar(was.cpu, Cpu, t.cores, m.cores, full);
    var ram := RebuildBar(was.ram, Ram, t.ram, m.ram, full);
    var disk := RebuildBar(was.storage, Disk, UsableOrZero(t), UsableOrZero(t), full);
    bars := new BarsRecord(cpu, ram, disk);
  }

  method RebuildUtilization(out: Record, rec: Record)
    requires out != rec
    modifies out`bars
    ensures out.bars == null <==> rec.bars == null
    ensures BarsView(out.bars)
            == NewBars(BarsView(rec.bars), rec.node.sizedFull, out.totals.v, out.n1.v)
    ensures out.bars != null ==> fresh(out.bars)
  {
    if rec.bars == null {
      out.bars := null;
      return;
    }
    out.bars := RebuildBars(rec.bars, out.totals.v, out.n1.v, rec.node.sizedFull);
  }

  method RebuildIops(out: Record, rec: Record, hw: Hw)
    requires out != rec && out.iops == rec.iops
    modifies out`iops
    ensures IopsView(out.iops) == NewIops(IopsView(rec.iops), out.node, hw)
    ensures hw.storageChanged ==> out.iops == null
    ensures !hw.storageChanged && !hw.nodesChanged ==> out.iops == rec.iops
    ensures rec.iops != null && !hw.storageChanged && hw.nodesChanged && rec.iops.v.perNode.Some? ==>
              && out.iops != null && out.iops.v.total == Times(rec.iops.v.perNode.value, out.node.nodes)
              && (HciOf(out.node) >= 1 ==>
                  out.iops.v.n1 == Times(rec.iops.v.perNode.value, Surviving(HciOf(out.node), |hw.layout|)))
    ensures out.iops == null || out.iops == rec.iops || fresh(out.iops)
  {
    if rec.iops == null {
      return;
    }
    if hw.storageChanged {
      out.iops := null;
    } else if hw.nodesChanged && rec.iops.v.perNode.Some? {
      var per, hci := rec.iops.v.perNode.value, HciOf(out.node);
      out.iops := new Nested(rec.iops.v.(total := Times(per, out.node.nodes),
                                         n1 := Times(per, Max(hci - |hw.layout|, if hci == 1 then 1 else 0))));
    }
  }

  method RebuildFigures(out: Record, rec: Record, hw: Hw)
    requires out != rec
    modifies out`node, out`totals, out`n1
    ensures out.totals.v == NewTotals(old(out.node), rec.totals.v, hw)
    ensures out.n1.v == NewN1(old(out.node), out.totals.v, hw)
    ensures out.node == RatioNode(old(out.node), rec.node, rec.totals.v, rec.n1.v, out.totals.v, out.n1.v)
  {
    RebuildCluster(out, rec, hw);
    RebuildRatio(out, rec);
  }

  method RebuildLoad(out: Record, rec: Record, hw: Hw)
    requires out != rec && out.iops == rec.iops
    modifies out`bars, out`iops
    ensures BarsView(out.bars) == NewBars(BarsView(rec.bars), rec.node.sizedFull, out.totals.v, out.n1.v)
    ensures IopsView(out.iops) == NewIops(IopsView(rec.iops), out.node, hw)
  {
    RebuildUtilization(out, rec);
    RebuildIops(out, rec, hw);
  }

  lemma RebuiltChanged(r: Rec, n: Node, s: Storage, hw: Hw, out: Rec)
    requires hw.changed && out.storage == s
    requires out.totals == NewTotals(n, r.totals, hw) && out.n1 == NewN1(n, out.totals, hw)
    requires out.node == RatioNode(n, r.node, r.totals, r.n1, out.totals, out.n1)
    requires out.bars == NewBars(r.bars, r.node.sizedFull, out.totals, out.n1)
    requires out.iops == NewIops(r.iops, out.node, hw)
    ensures out == Rebuilt(r, n, s, hw)
  {
  }

  method Rebuild(out: Record, rec: Record, hw: Hw)
    requires out != rec && out.iops == rec.iops && hw.changed
    modifies out
    ensures out.View() == Rebuilt(rec.View(), old(out.node), old(out.storage.v), hw)
  {
    ghost var r, n, s := rec.View(), out.node, out.storage.v;
    RebuildFigures(out, rec, hw);
    RebuildLoad(out, rec, hw);
    RebuiltChanged(r, n, s, hw, out.View());
  }

  /** A record of the quoted hardware. Nothing that existed before the call is written: neither the record nor any
      nested one. */
  method ApplyToRec(rec: Record, q: Option<Quote>, maxPer: int) returns (out: Record)
    requires maxPer > 0
    ensures out.View() == Applied(old(rec.View()), q, maxPer)
    ensures rec.View() == old(rec.View())
    ensures out == rec || fresh(out)
  {
    if q.None? || !rec.node.validated || IsEmpty(q.value) {
      return rec;
    }
    ghost var r := rec.View();
    out := new Record(rec);
    var hw := ApplyHardware(out, rec, q.value, maxPer);
    assert rec.View() == r;
    AppliedIs(r, q.value, maxPer, out.node, out.storage.v, hw);
    assert !hw.changed ==> out.View() == r.(node := out.node, storage := out.storage.v);
    if hw.changed {
      Rebuild(out, rec, hw);
    }
  }

  lemma AppliedIs(r: Rec, q: Quote, maxPer: int, n: Node, s: Storage, hw: Hw)
    requires maxPer > 0 && r.node.validated && !IsEmpty(q)
    requires n == QuotedNode(r.node, q, maxPer) && s == QuotedStorage(r.storage, q)
    requires hw == HwFor(r.node, r.storage, q, maxPer)
    ensures Applied(r, Some(q), maxPer) == Rebuilt(r, n, s, hw)
    ensures !hw.changed ==> Applied(r, Some(q), maxPer) == r.(node := n, storage := s)
  {
  }
}
