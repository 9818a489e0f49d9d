/** The union-find of the estate merge: a parent dictionary with path halving. */
module UnionFind {
  import opened Reachability

  /** What holds at one node: `roots` labels it with the end of its parent
      chain, and `rank` falls along the chain, so the chain is finite. */
  ghost predicate NodeOk<T(!new)>(p: map<T, T>, rank: map<T, nat>, roots: map<T, T>, x: T) {
    && x in p && x in rank && x in roots
    && p[x] in p && p[x] in rank && p[x] in roots && roots[x] in roots
    && (p[x] != x ==> rank[p[x]] < rank[x])
    && (p[x] == x ==> roots[x] == x)
    && roots[p[x]] == roots[x]
  }

  ghost predicate Forest<T(!new)>(p: map<T, T>, rank: map<T, nat>, roots: map<T, T>) {
    && p.Keys == rank.Keys == roots.Keys
    && forall x {:trigger NodeOk(p, rank, roots, x)} :: x in p ==> NodeOk(p, rank, roots, x)
  }

  /** The partition into roots is exactly the closure of the united pairs. */
  ghost predicate Represents<T(!new)>(roots: map<T, T>, edges: set<(T, T)>) {
    && (forall e :: e in edges ==> e.0 in roots && e.1 in roots)
    && forall a, b {:trigger Connected(edges, a, b)} :: a in roots && b in roots ==>
         (roots[a] == roots[b] <==> Connected(edges, a, b))
  }

  lemma SingletonRepresents<T(!new)>(roots: map<T, T>, edges: set<(T, T)>, x: T)
    requires Represents(roots, edges) && x !in roots && forall y :: y in roots ==> roots[y] in roots
    ensures Represents(roots[x := x], edges)
  {
    forall a, b | a in roots[x := x] && b in roots[x := x]
      ensures roots[x := x][a] == roots[x := x][b] <==> Connected(edges, a, b)
    {
      if a == x || b == x {
        ConnectedRefl(edges, x);
        if Connected(edges, a, b) {
          ConnectedSym(edges, a, b);
          ConnectedIsolated(edges, x, if a == x then b else a);
        }
      }
    }
  }

  /** Adding one edge joins exactly the classes of its two ends. */
  lemma UnionConnects<T(!new)>(edges: set<(T, T)>, a: T, b: T, x: T, y: T)
    ensures Connected(edges + {(a, b)}, x, y) <==>
              || Connected(edges, x, y)
              || (Connected(edges, x, a) && Connected(edges, y, b))
              || (Connected(edges, x, b) && Connected(edges, y, a))
  {
    var more := edges + {(a, b)};
    if Connected(more, x, y) {
      ConnectedWithEdge(edges, a, b, x, y);
      if Connected(edges, b, y) { ConnectedSym(edges, b, y); }
      if Connected(edges, a, y) { ConnectedSym(edges, a, y); }
    }
    ConnectedEdge(more, a, b);
    ConnectedEdge(more, b, a);
    if Connected(edges, x, y) {
      ConnectedMono(edges, more, x, y);
    } else if Connected(edges, x, a) && Connected(edges, y, b) {
      ConnectedMono(edges, more, x, a);
      ConnectedMono(edges, more, y, b);
      ConnectedSym(more, y, b);
      ConnectedTrans(more, x, a, b);
      ConnectedTrans(more, x, b, y);
    } else if Connected(edges, x, b) && Connected(edges, y, a) {
      ConnectedMono(edges, more, x, b);
      ConnectedMono(edges, more, y, a);
      ConnectedSym(more, y, a);
      ConnectedTrans(more, x, b, a);
      ConnectedTrans(more, x, a, y);
    }
  }

  /** The labels once the tree of root rb hangs under root ra. */
  ghost function Relabelled<T>(roots: map<T, T>, ra: T, rb: T): map<T, T> {
    map x | x in roots :: if roots[x] == rb then ra else roots[x]
  }

  /** Ranks that keep falling along the chains once rb hangs under ra. */
  ghost function LiftedRanks<T>(roots: map<T, T>, rank: map<T, nat>, ra: T, rb: T): map<T, nat>
    requires roots.Keys == rank.Keys && ra in rank
  {
    map x | x in roots :: if roots[x] == rb then rank[x] + rank[ra] + 1 else rank[x]
  }

  /** Joining the trees of a and b represents one more edge. */
  lemma UnionRepresents<T(!new)>(roots: map<T, T>, edges: set<(T, T)>, a: T, b: T)
    requires Represents(roots, edges) && a in roots && b in roots
    ensures Represents(Relabelled(roots, roots[a], roots[b]), edges + {(a, b)})
    ensures roots[a] == roots[b] ==> Represents(roots, edges + {(a, b)})
  {
    var after := Relabelled(roots, roots[a], roots[b]);
    assert roots[a] == roots[b] ==> after == roots;
    forall x, y | x in roots && y in roots
      ensures after[x] == after[y] <==> Connected(edges + {(a, b)}, x, y)
    {
      UnionConnects(edges, a, b, x, y);
    }
  }

  lemma SingletonForest<T(!new)>(p: map<T, T>, rank: map<T, nat>, roots: map<T, T>, x: T)
    requires Forest(p, rank, roots) && x !in p
    ensures Forest(p[x := x], rank[x := 0], roots[x := x])
  {
    forall y {:trigger NodeOk(p[x := x], rank[x := 0], roots[x := x], y)} | y in p[x := x]
      ensures NodeOk(p[x := x], rank[x := 0], roots[x := x], y)
    {
      assert y != x ==> NodeOk(p, rank, roots, y);
    }
  }

  lemma LabelsAreNodes<T(!new)>(p: map<T, T>, rank: map<T, nat>, roots: map<T, T>)
    requires Forest(p, rank, roots)
    ensures forall y :: y in roots ==> roots[y] in roots
  {
    forall y | y in roots ensures roots[y] in roots {
      assert NodeOk(p, rank, roots, y);
    }
  }

  /** Path halving keeps the chains and their ends. */
  lemma HalvingForest<T(!new)>(p: map<T, T>, rank: map<T, nat>, roots: map<T, T>, x: T)
    requires Forest(p, rank, roots) && x in p
    ensures p[x] in p && p[p[x]] in p && roots[p[p[x]]] == roots[x]
    ensures p[x] != x ==> rank[p[p[x]]] < rank[x]
    ensures Forest(p[x := p[p[x]]], rank, roots)
  {
    assert NodeOk(p, rank, roots, x) && NodeOk(p, rank, roots, p[x]);
    var q := p[x := p[p[x]]];
    forall y {:trigger NodeOk(q, rank, roots, y)} | y in q
      ensures NodeOk(q, rank, roots, y)
    {
      assert NodeOk(p, rank, roots, y);
      assert NodeOk(p, rank, roots, p[p[x]]);
    }
  }

  lemma LinkingForest<T(!new)>(p: map<T, T>, rank: map<T, nat>, roots: map<T, T>, ra: T, rb: T)
    requires Forest(p, rank, roots) && ra in p && rb in p && ra != rb
    requires roots[ra] == ra && roots[rb] == rb
    ensures Forest(p[rb := ra], LiftedRanks(roots, rank, ra, rb), Relabelled(roots, ra, rb))
  {
    var q, rank', after := p[rb := ra], LiftedRanks(roots, rank, ra, rb), Relabelled(roots, ra, rb);
    forall x {:trigger NodeOk(q, rank', after, x)} | x in q
      ensures NodeOk(q, rank', after, x)
    {
      assert NodeOk(p, rank, roots, x);
    }
  }

  class UF<T(==,!new)> {
    var p: map<T, T>
    ghost var rank: map<T, nat>
    ghost var roots: map<T, T>
    ghost var edges: set<(T, T)>  // every pair united so far

    ghost predicate Valid()
      reads this
    {
      Forest(p, rank, roots) && Represents(roots, edges)
    }

    constructor ()
      ensures Valid() && p == map[] && edges == {}
    {
      p, rank, roots, edges := map[], map[], map[], {};
    }

    /** Terminates under path halving, answers the root, and changes no class. */
    method Find(x0: T) returns (r: T)
      requires Valid()
      modifies this
      ensures Valid() && edges == old(edges)
      ensures p.Keys == old(p.Keys) + {x0}
      ensures roots == if x0 in old(p) then old(roots) else old(roots)[x0 := x0]
      ensures r == roots[x0] && r in p && roots[r] == r
    {
      var x := x0;
      if x !in p {  // setdefault
        LabelsAreNodes(p, rank, roots);
        SingletonRepresents(roots, edges, x);
        SingletonForest(p, rank, roots, x);
        p, rank, roots := p[x := x], rank[x := 0], roots[x := x];
      }
      while p[x] != x
        invariant p.Keys == old(p.Keys) + {x0} && edges == old(edges)
        invariant roots == if x0 in old(p) then old(roots) else old(roots)[x0 := x0]
        invariant Valid() && x in p && roots[x] == roots[x0]
        decreases rank[x]
      {
        HalvingForest(p, rank, roots, x);
        p := p[x := p[p[x]]];
        x := p[x];
      }
      assert NodeOk(p, rank, roots, x);
      r := x;
    }

    method Union(a: T, b: T)
      requires Valid()
      modifies this
      ensures Valid() && edges == old(edges) + {(a, b)}
      ensures p.Keys == old(p.Keys) + {a, b}
    {
      var ra := Find(a);
      var rb := Find(b);
      Link(ra, rb, a, b);
    }

    /** The last step of a union: one root under the other, unless equal. */
    method Link(ra: T, rb: T, ghost a: T, ghost b: T)
      requires Valid() && a in p && b in p
      requires ra in p && rb in p && ra == roots[a] == roots[ra] && rb == roots[b] == roots[rb]
      modifies this
      ensures Valid() && edges == old(edges) + {(a, b)} && p.Keys == old(p.Keys)
    {
      UnionRepresents(roots, edges, a, b);
      edges := edges + {(a, b)};
      if ra != rb {
        LinkingForest(p, rank, roots, ra, rb);
        p, rank, roots := p[rb := ra], LiftedRanks(roots, rank, ra, rb), Relabelled(roots, ra, rb);
      }
    }
  }
}
