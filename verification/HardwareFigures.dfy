/** Cluster totals, N-1 capacity and usable storage from per-node figures. */
module HardwareFigures {
  import opened Text
  import opened Rounding
  import opened ClusterLayouts

  datatype Totals = Totals(cores: real, threads: int, ghz: real, ram: real,
                           perf: Option<real>, raw: Option<real>, usable: Option<real>)
  datatype N1 = N1(cores: real, threads: int, ghz: real, ram: real, usable: real)

  /** A per-node figure over so many nodes. */
  function Times(x: real, n: int): real {
    x * n as real
  }

  function NodeClock(ghz: real, cores: real): real {
    ghz * cores
  }

  function Max(a: int, b: int): int {
    if a >= b then a else b
  }

  /** Survivors when each cluster loses a node; one node alone counts as its own survivor. */
  function Surviving(hci: int, clusters: int): int {
    if hci > 1 then Max(hci - clusters, 0) else 1
  }

  function NMinusOne(hci: int, clusters: int, cores: real, threads: int, ghz: real, ram: real, usable: real): N1 {
    var left := Surviving(hci, clusters);
    N1(Times(cores, left), threads * left, Round2(Times(ghz, left)), Times(ram, left), Round2(usable))
  }

  /** Half of what is left once each cluster sets its biggest disk aside. */
  function ClusterUsable(raw: real, biggest: real, layout: seq<int>): real {
    if layout == [] then 0.0 else (Times(raw, layout[0]) - biggest) / 2.0 + ClusterUsable(raw, biggest, layout[1..])
  }

  /** One node mirrors within itself, unless it has a single disk. */
  function SingleUsable(raw: real, bays: int): real {
    if bays <= 1 then raw else raw / 2.0
  }

  /** Usable storage as the calculator has it: by the node count. */
  function DirectUsable(raw: real, biggest: real, layout: seq<int>, nodes: int, bays: int): real {
    if nodes > 1 then ClusterUsable(raw, biggest, layout) else SingleUsable(raw, bays)
  }

  /** Usable storage as the quoted rebuild has it: by the layout. */
  function QuotedUsable(raw: real, biggest: real, bays: int, layout: seq<int>): real {
    if Sum(layout) > 1 then ClusterUsable(raw, biggest, layout) else SingleUsable(raw, bays)
  }

  datatype Build = Build(hci: int, nodes: int, layout: seq<int>, cores: real, threads: int, ghz: real, ram: real,
                         raw: real, biggest: real, bays: int)

  datatype Capacity = Capacity(usableCores: real, usableRam: real, totals: Totals, n1: N1)

  /** A cluster computed from scratch: physical figures less what the platform reserves on every node. */
  function DirectBuild(b: Build, reservedCores: real, reservedRam: real): Capacity {
    var cores := b.cores - reservedCores;
    var ram := b.ram - reservedRam;
    var usable := DirectUsable(b.raw, b.biggest, b.layout, b.nodes, b.bays);
    Capacity(cores, ram,
             Totals(Times(cores, b.hci), b.threads * b.hci, Round2(Times(NodeClock(b.ghz, b.cores), b.hci)),
                    Times(ram, b.hci), None,
                    Some(Round2(Times(b.raw, b.nodes))), Some(Round2(usable))),
             NMinusOne(b.hci, |b.layout|, cores, b.threads, NodeClock(b.ghz, b.cores), ram, usable))
  }

  /** Usable storage depends on the layout only through its nodes and its clusters. */
  lemma {:induction false} ClusterUsableClosed(raw: real, biggest: real, layout: seq<int>)
    ensures ClusterUsable(raw, biggest, layout) == (Times(raw, Sum(layout)) - Times(biggest, |layout|)) / 2.0
  {
    if layout != [] {
      ClusterUsableClosed(raw, biggest, layout[1..]);
      Distribute(raw, layout[0], Sum(layout[1..]));
      Distribute(biggest, 1, |layout[1..]|);
    }
  }

  lemma Distribute(x: real, m: int, n: int)
    ensures Times(x, m + n) == Times(x, m) + Times(x, n)
  {
    assert (m + n) as real == m as real + n as real;
  }

  lemma UsableByCount(raw: real, biggest: real, bays: int, a: seq<int>, b: seq<int>)
    requires Sum(a) == Sum(b) && |a| == |b|
    ensures QuotedUsable(raw, biggest, bays, a) == QuotedUsable(raw, biggest, bays, b)
  {
    ClusterUsableClosed(raw, biggest, a);
    ClusterUsableClosed(raw, biggest, b);
  }
}
