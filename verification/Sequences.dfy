/** Sequences filtered by a predicate, in order. */
module Sequences {

  /** No element twice. */
  predicate Distinct<T(==)>(s: seq<T>) {
    forall i, j :: 0 <= i < j < |s| ==> s[i] != s[j]
  }

  lemma LastIsNew<T>(s: seq<T>)
    requires s != [] && Distinct(s)
    ensures s[|s|-1] !in s[..|s|-1] && Distinct(s[..|s|-1]) && s == s[..|s|-1] + [s[|s|-1]]
  {
  }

  function Filter<T>(s: seq<T>, p: T -> bool): (r: seq<T>)
    ensures |r| <= |s|
  {
    if s == [] then []
    else
      var rest := Filter(s[..|s|-1], p);
      if p(s[|s|-1]) then rest + [s[|s|-1]] else rest
  }

  lemma {:induction false} FilterMeaning<T>(s: seq<T>, p: T -> bool)
    ensures forall x :: x in Filter(s, p) <==> x in s && p(x)
  {
    if s != [] {
      FilterMeaning(s[..|s|-1], p);
      assert s == s[..|s|-1] + [s[|s|-1]];
    }
  }

  lemma {:induction false} FilterNone<T>(s: seq<T>, p: T -> bool)
    ensures Filter(s, p) == [] <==> forall i :: 0 <= i < |s| ==> !p(s[i])
  {
    if s != [] {
      FilterNone(s[..|s|-1], p);
    }
  }

  lemma {:induction false} FilterAll<T>(s: seq<T>, p: T -> bool)
    requires forall x :: x in s ==> p(x)
    ensures Filter(s, p) == s
  {
    if s != [] {
      FilterAll(s[..|s|-1], p);
      assert s == s[..|s|-1] + [s[|s|-1]];
    }
  }

  lemma {:induction false} FilterSame<T>(s: seq<T>, p: T -> bool, q: T -> bool)
    requires forall x :: x in s ==> p(x) == q(x)
    ensures Filter(s, p) == Filter(s, q)
  {
    if s != [] {
      FilterSame(s[..|s|-1], p, q);
      assert s == s[..|s|-1] + [s[|s|-1]];
    }
  }

  lemma FilterPush<T>(s: seq<T>, x: T, p: T -> bool)
    ensures Filter(s + [x], p) == Filter(s, p) + (if p(x) then [x] else [])
  {
    assert (s + [x])[..|s|] == s;
  }

  lemma FilterStep<T>(s: seq<T>, n: nat, p: T -> bool)
    requires n < |s|
    ensures Filter(s[..n+1], p) == Filter(s[..n], p) + (if p(s[n]) then [s[n]] else [])
  {
    assert s[..n+1][..n] == s[..n];
  }

  // ── first seen, first listed ──────────────────────────────────────────────

  /** Every element once, where it first comes. */
  function Once<T(==)>(s: seq<T>): seq<T> {
    if s == [] then []
    else
      var rest := Once(s[..|s|-1]);
      if s[|s|-1] in rest then rest else rest + [s[|s|-1]]
  }

  predicate Before<T(==)>(s: seq<T>, x: T, y: T) {
    exists i :: 0 <= i < |s| && s[i] == x && y !in s[..i+1]
  }

  lemma BeforePush<T>(front: seq<T>, last: T, x: T, y: T)
    ensures Before(front, x, y) ==> Before(front + [last], x, y)
    ensures x in front && y !in front ==> Before(front + [last], x, y)
  {
    var s := front + [last];
    if i :| 0 <= i < |front| && front[i] == x && y !in front[..i+1] {
      assert s[i] == x && s[..i+1] == front[..i+1];
    }
    if x in front && y !in front {
      var i :| 0 <= i < |front| && front[i] == x;
      assert s[i] == x && s[..i+1] == front[..i+1];
    }
  }

  /** Listed once each, exactly the elements there are, in the order in which they are first seen. */
  predicate InOrder<T(==)>(list: seq<T>, s: seq<T>) {
    && Distinct(list) && (forall x :: x in list ==> x in s) && (forall x :: x in s ==> x in list)
    && forall i, j :: 0 <= i < j < |list| ==> Before(s, list[i], list[j])
  }

  lemma {:induction false} OnceInOrder<T>(s: seq<T>)
    ensures InOrder(Once(s), s)
  {
    if s != [] {
      var front, last := s[..|s|-1], s[|s|-1];
      assert s == front + [last];
      OnceInOrder(front);
      var list := Once(s);
      forall i, j | 0 <= i < j < |list| ensures Before(s, list[i], list[j]) {
        BeforePush(front, last, list[i], list[j]);
      }
    }
  }

  lemma OncePush<T>(front: seq<T>, last: T)
    ensures Once(front + [last]) == if last in Once(front) then Once(front) else Once(front) + [last]
  {
    assert (front + [last])[..|front|] == front;
  }
}
