/** How many nodes go into each cluster. */
module ClusterLayouts {
  function Sum(layout: seq<int>): int {
    if layout == [] then 0 else layout[0] + Sum(layout[1..])
  }

  function Ceil(n: int, d: int): int
    requires d > 0
  {
    (n + d - 1) / d
  }

  /** Near-equal clusters of at most maxPer nodes; one cluster when they all fit. */
  function Layout(total: int, maxPer: int): seq<int>
    requires maxPer > 0
  {
    if total <= maxPer then [total]
    else
      var clusters := Ceil(total, maxPer);
      assert clusters > 0;
      seq(total % clusters, _ => total / clusters + 1)
      + seq(clusters - total % clusters, _ => total / clusters)
  }

  lemma {:induction false} SumConcat(a: seq<int>, b: seq<int>)
    ensures Sum(a + b) == Sum(a) + Sum(b)
  {
    if a != [] {
      assert (a + b)[1..] == a[1..] + b;
      SumConcat(a[1..], b);
    } else {
      assert a + b == b;
    }
  }

  lemma {:induction false} SumRepeat(n: nat, x: int)
    ensures Sum(seq(n, _ => x)) == n * x
  {
    if n > 0 {
      assert seq(n, _ => x)[1..] == seq(n - 1, _ => x);
      SumRepeat(n - 1, x);
    }
  }

  lemma CeilMeaning(n: int, d: int)
    requires d > 0
    ensures n <= Ceil(n, d) * d < n + d
  {
  }

  /** The clusters hold every node, none is over the cap, no two differ by more than one, and no fewer would do. */
  lemma LayoutMeaning(total: int, maxPer: int)
    requires maxPer > 0
    ensures Sum(Layout(total, maxPer)) == total
    ensures forall i :: 0 <= i < |Layout(total, maxPer)| ==> Layout(total, maxPer)[i] <= maxPer
    ensures forall i, j :: 0 <= i < j < |Layout(total, maxPer)| ==>
              0 <= Layout(total, maxPer)[i] - Layout(total, maxPer)[j] <= 1
    ensures total > maxPer ==> (|Layout(total, maxPer)| - 1) * maxPer < total <= |Layout(total, maxPer)| * maxPer
  {
    if total > maxPer {
      var k := Ceil(total, maxPer);
      CeilMeaning(total, maxPer);
      LayoutSum(total, k);
      SmallEnough(total, maxPer, k);
    } else {
      assert [total][1..] == [];
    }
  }

  lemma LayoutSum(total: int, k: int)
    requires k > 0
    ensures Sum(seq(total % k, _ => total / k + 1) + seq(k - total % k, _ => total / k)) == total
  {
    var r, base := total % k, total / k;
    SumConcat(seq(r, _ => base + 1), seq(k - r, _ => base));
    SumRepeat(r, base + 1);
    SumRepeat(k - r, base);
    Shares(k, r, base);
  }

  lemma Shares(k: int, r: int, base: int)
    ensures r * (base + 1) + (k - r) * base == k * base + r
  {
  }

  lemma SmallEnough(total: int, maxPer: int, k: int)
    requires k > 0 && total <= k * maxPer
    ensures total / k + (if total % k > 0 then 1 else 0) <= maxPer
  {
    var base := total / k;
    assert base * k + total % k == total;
    if base >= maxPer {
      assert base * k >= maxPer * k by { Grow(maxPer, base, k); }
      if base > maxPer {
        Grow(maxPer + 1, base, k);
      }
    }
  }

  lemma Grow(a: int, b: int, k: int)
    requires a <= b && k > 0
    ensures a * k <= b * k
  {
  }

  /** More nodes never make fewer clusters. */
  lemma MoreNodesMoreClusters(a: int, b: int, maxPer: int)
    requires maxPer > 0 && a <= b
    ensures |Layout(a, maxPer)| <= |Layout(b, maxPer)|
  {
    if a > maxPer {
      LayoutMeaning(a, maxPer);
      LayoutMeaning(b, maxPer);
      Fewer(|Layout(a, maxPer)|, |Layout(b, maxPer)|, maxPer);
    } else if b > maxPer {
      CeilMeaning(b, maxPer);
    }
  }

  lemma Fewer(k: int, l: int, m: int)
    requires m > 0 && (k - 1) * m < l * m
    ensures k <= l
  {
    if l < k {
      Grow(l, k - 1, m);
    }
  }
}
