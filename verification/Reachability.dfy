/** Reachability over a set of undirected edges: the reference meaning of
    "belongs to the same class". */
module Reachability {

  ghost predicate Linked<T>(edges: set<(T, T)>, a: T, b: T) {
    (a, b) in edges || (b, a) in edges
  }

  ghost predicate Path<T>(edges: set<(T, T)>, s: seq<T>) {
    |s| > 0 && forall i :: 0 <= i < |s| - 1 ==> Linked(edges, s[i], s[i+1])
  }

  ghost predicate PathFromTo<T>(edges: set<(T, T)>, s: seq<T>, a: T, b: T) {
    Path(edges, s) && s[0] == a && s[|s|-1] == b
  }

  ghost predicate Connected<T(!new)>(edges: set<(T, T)>, a: T, b: T) {
    exists s :: PathFromTo(edges, s, a, b)
  }

  lemma ConnectedRefl<T(!new)>(edges: set<(T, T)>, a: T)
    ensures Connected(edges, a, a)
  {
    assert PathFromTo(edges, [a], a, a);
  }

  lemma ConnectedEdge<T(!new)>(edges: set<(T, T)>, a: T, b: T)
    requires Linked(edges, a, b)
    ensures Connected(edges, a, b)
  {
    assert PathFromTo(edges, [a, b], a, b);
  }

  lemma ConnectedTrans<T(!new)>(edges: set<(T, T)>, a: T, b: T, c: T)
    requires Connected(edges, a, b) && Connected(edges, b, c)
    ensures Connected(edges, a, c)
  {
    var s :| PathFromTo(edges, s, a, b);
    var t :| PathFromTo(edges, t, b, c);
    var u := s + t[1..];
    forall i | 0 <= i < |u| - 1
      ensures Linked(edges, u[i], u[i+1])
    {
      if i >= |s| - 1 {
        assert u[i] == t[i - |s| + 1] && u[i+1] == t[i - |s| + 2];
      }
    }
    assert PathFromTo(edges, u, a, c);
  }

  lemma {:induction false} ConnectedSym<T(!new)>(edges: set<(T, T)>, a: T, b: T)
    requires Connected(edges, a, b)
    ensures Connected(edges, b, a)
  {
    var s :| PathFromTo(edges, s, a, b);
    PathReversed(edges, s);
  }

  lemma {:induction false} PathReversed<T(!new)>(edges: set<(T, T)>, s: seq<T>)
    requires Path(edges, s)
    ensures Connected(edges, s[|s|-1], s[0])
    decreases |s|
  {
    if |s| == 1 {
      ConnectedRefl(edges, s[0]);
    } else {
      PathReversed(edges, s[1..]);
      assert Linked(edges, s[0], s[1]);
      ConnectedEdge(edges, s[1], s[0]);
      ConnectedTrans(edges, s[|s|-1], s[1], s[0]);
    }
  }

  lemma ConnectedMono<T(!new)>(edges: set<(T, T)>, more: set<(T, T)>, a: T, b: T)
    requires edges <= more && Connected(edges, a, b)
    ensures Connected(more, a, b)
  {
    var s :| PathFromTo(edges, s, a, b);
    assert PathFromTo(more, s, a, b);
  }

  ghost predicate IsEquivalence<T(!new)>(r: (T, T) -> bool) {
    && (forall x :: r(x, x))
    && (forall x, y :: r(x, y) ==> r(y, x))
    && forall x, y, z :: r(x, y) && r(y, z) ==> r(x, z)
  }

  /** The closure is the least equivalence over the edges: it lies inside every other one. */
  lemma ConnectedLeast<T(!new)>(edges: set<(T, T)>, r: (T, T) -> bool, a: T, b: T)
    requires IsEquivalence(r) && forall e :: e in edges ==> r(e.0, e.1)
    requires Connected(edges, a, b)
    ensures r(a, b)
  {
    var s :| PathFromTo(edges, s, a, b);
    PathLeast(edges, r, s);
  }

  lemma {:induction false} PathLeast<T(!new)>(edges: set<(T, T)>, r: (T, T) -> bool, s: seq<T>)
    requires IsEquivalence(r) && forall e :: e in edges ==> r(e.0, e.1)
    requires Path(edges, s)
    ensures r(s[0], s[|s|-1])
    decreases |s|
  {
    if |s| > 1 {
      PathLeast(edges, r, s[1..]);
      assert Linked(edges, s[0], s[1]);
      if (s[0], s[1]) in edges {
        assert r((s[0], s[1]).0, (s[0], s[1]).1);
      } else {
        assert r((s[1], s[0]).0, (s[1], s[0]).1);
      }
    }
  }

  /** So an edge set that connects the ends of every edge of another connects all that the other does. */
  lemma ConnectedWithin<T(!new)>(edges: set<(T, T)>, other: set<(T, T)>, a: T, b: T)
    requires forall e :: e in edges ==> Connected(other, e.0, e.1)
    requires Connected(edges, a, b)
    ensures Connected(other, a, b)
  {
    var r := (x: T, y: T) => Connected(other, x, y);
    forall x ensures r(x, x) { ConnectedRefl(other, x); }
    forall x, y | r(x, y) ensures r(y, x) { ConnectedSym(other, x, y); }
    forall x, y, z | r(x, y) && r(y, z) ensures r(x, z) { ConnectedTrans(other, x, y, z); }
    ConnectedLeast(edges, r, a, b);
  }

  /** What one more edge can connect. */
  lemma {:induction false} ConnectedWithEdge<T(!new)>(edges: set<(T, T)>, u: T, v: T, a: T, b: T)
    requires Connected(edges + {(u, v)}, a, b)
    ensures || Connected(edges, a, b)
            || (Connected(edges, a, u) && Connected(edges, v, b))
            || (Connected(edges, a, v) && Connected(edges, u, b))
  {
    var s :| PathFromTo(edges + {(u, v)}, s, a, b);
    PathWithEdge(edges, u, v, s);
  }

  lemma {:induction false} PathWithEdge<T(!new)>(edges: set<(T, T)>, u: T, v: T, s: seq<T>)
    requires Path(edges + {(u, v)}, s)
    ensures var a, b := s[0], s[|s|-1];
            || Connected(edges, a, b)
            || (Connected(edges, a, u) && Connected(edges, v, b))
            || (Connected(edges, a, v) && Connected(edges, u, b))
    decreases |s|
  {
    var a, b := s[0], s[|s|-1];
    ConnectedRefl(edges, a);
    if |s| > 1 {
      var c := s[1];
      PathWithEdge(edges, u, v, s[1..]);
      assert Linked(edges + {(u, v)}, a, c);
      ConnectedRefl(edges, c);
      if Linked(edges, a, c) {
        ConnectedEdge(edges, a, c);
        if Connected(edges, c, b) { ConnectedTrans(edges, a, c, b); }
        else if Connected(edges, c, u) && Connected(edges, v, b) { ConnectedTrans(edges, a, c, u); }
        else { ConnectedTrans(edges, a, c, v); }
      }
    }
  }

  /** A node no edge touches is connected to itself only. */
  lemma ConnectedIsolated<T(!new)>(edges: set<(T, T)>, x: T, b: T)
    requires forall e :: e in edges ==> e.0 != x && e.1 != x
    requires Connected(edges, x, b)
    ensures b == x
  {
    var s :| PathFromTo(edges, s, x, b);
    assert |s| > 1 ==> Linked(edges, s[0], s[1]);
  }
}
