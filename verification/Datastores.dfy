/** Sharing a file's datastores over clusters: by mount, else by used storage. */
module Datastores {
  import opened Sequences
  import opened Text
  import opened Rounding
  import opened EstateModel

  /** A cluster's part of one datastore; `whole` parts are plain copies. */
  datatype Share = Share(cluster: string, frac: real, whole: bool)

  function ScaleOpt(x: Option<real>, frac: real): Option<real> {
    match x
    case None => None
    case Some(v) => Some(Round2(v * frac))
  }

  function Scaled(s: Store, frac: real): Store {
    s.(capacity := ScaleOpt(s.capacity, frac),
       used := ScaleOpt(s.used, frac),
       free := ScaleOpt(s.free, frac),
       vmCount := match s.vmCount case None => None case Some(n) => Some(RoundInt(n as real * frac)))
  }

  /** Where the mounts lead: each cluster once, by its first mounting host. */
  function MountClusters(mounts: seq<string>, hostCluster: map<string, string>): seq<string> {
    if mounts == [] then []
    else
      var seen := MountClusters(mounts[..|mounts|-1], hostCluster);
      var m := mounts[|mounts|-1];
      if m in hostCluster && hostCluster[m] != "" && hostCluster[m] !in seen then seen + [hostCluster[m]]
      else seen
  }

  function Total(names: seq<string>, used: map<string, real>): real {
    if names == [] then 0.0
    else Total(names[..|names|-1], used) + UsedBy(names[|names|-1], used)
  }

  function UsedBy(c: string, used: map<string, real>): real {
    if c in used then used[c] else 0.0
  }

  function EvenShares(names: seq<string>, frac: real, whole: bool): seq<Share> {
    seq(|names|, i requires 0 <= i < |names| => Share(names[i], frac, whole))
  }

  function Fraction(u: real, total: real): real
    requires total > 0.0
  {
    u / total
  }

  function UsedShares(names: seq<string>, used: map<string, real>, total: real): seq<Share>
    requires total > 0.0
  {
    if names == [] then []
    else
      var rest := UsedShares(names[..|names|-1], used, total);
      var c := names[|names|-1];
      if Fraction(UsedBy(c, used), total) > 0.0 then rest + [Share(c, Fraction(UsedBy(c, used), total), false)]
        else rest
  }

  function SharesOf(s: Store, hostCluster: map<string, string>, names: seq<string>, used: map<string, real>): seq<Share>
    requires names != []
  {
    var mounted := MountClusters(s.mounts, hostCluster);
    if mounted != [] then EvenShares(mounted, 1.0 / |mounted| as real, |mounted| == 1)
    else if Total(names, used) > 0.0 then UsedShares(names, used, Total(names, used))
    else EvenShares(names, 1.0 / |names| as real, false)
  }

  function PartOf(s: Store, share: Share): Store {
    if share.whole then s else Scaled(s, share.frac)
  }

  function PartsFor(s: Store, shares: seq<Share>, c: string): seq<Store> {
    if shares == [] then []
    else
      var rest := PartsFor(s, shares[..|shares|-1], c);
      var last := shares[|shares|-1];
      if last.cluster == c then rest + [PartOf(s, last)] else rest
  }

  /** Everything cluster c is given, datastore by datastore. */
  function StoresFor(stores: seq<Store>, hostCluster: map<string, string>, names: seq<string>,
                     used: map<string, real>, c: string): seq<Store>
    requires names != []
  {
    if stores == [] then []
    else
      var s := stores[|stores|-1];
      StoresFor(stores[..|stores|-1], hostCluster, names, used, c)
      + PartsFor(s, SharesOf(s, hostCluster, names, used), c)
  }

  /** The used storage of the named clusters, each as listed, or nothing. */
  lemma {:induction false} TotalAddsUp(a: seq<string>, b: seq<string>, used: map<string, real>)
    ensures Total(a + b, used) == Total(a, used) + Total(b, used)
    ensures forall c :: Total([c], used) == (if c in used then used[c] else 0.0) && UsedBy(c, used) == Total([c], used)
  {
    forall c ensures Total([c], used) == UsedBy(c, used) {
      assert [c][..0] == [];
    }
    if b == [] {
      assert a + b == a;
    } else {
      TotalAddsUp(a, b[..|b|-1], used);
      assert (a + b)[..|a+b|-1] == a + b[..|b|-1];
    }
  }

  // ── what each cluster is due ──────────────────────────────────────────────

  /** The clusters of the hosts that mount a datastore. */
  function Mounting(mounts: seq<string>, hostCluster: map<string, string>): set<string> {
    set m | m in mounts && m in hostCluster && hostCluster[m] != "" :: hostCluster[m]
  }

  /** The fraction of a datastore that a cluster is due: an equal share of the mounting clusters; without any, its share
      of the used storage; without that too, an equal share of the named clusters. */
  function Due(s: Store, hostCluster: map<string, string>, names: seq<string>, used: map<string, real>, c: string): real
    requires names != []
  {
    var mounting := Mounting(s.mounts, hostCluster);
    if mounting != {} then if c in mounting then 1.0 / |mounting| as real else 0.0
    else if c !in names then 0.0
    else if Total(names, used) > 0.0 then Fraction(UsedBy(c, used), Total(names, used))
    else 1.0 / |names| as real
  }

  predicate AmountPart(part: Option<real>, whole: Option<real>, frac: real) {
    (part.Some? <==> whole.Some?) && (part.Some? ==> Within(part.value, whole.value * frac, 0.005))
  }

  /** The datastore with its amounts scaled, to half a hundredth, and its VM count, to a half. */
  predicate IsPart(part: Store, s: Store, frac: real) {
    && part == s.(capacity := part.capacity, used := part.used, free := part.free, vmCount := part.vmCount)
    && AmountPart(part.capacity, s.capacity, frac) && AmountPart(part.used, s.used, frac)
    && AmountPart(part.free, s.free, frac) && (part.vmCount.Some? <==> s.vmCount.Some?)
    && (part.vmCount.Some? ==> Within(part.vmCount.value as real, s.vmCount.value as real * frac, 0.5))
  }

  /** One part where something is due, and a plain copy where all of it is a single mounting cluster's. */
  predicate Receives(list: seq<Store>, s: Store, hostCluster: map<string, string>, names: seq<string>,
                     used: map<string, real>, c: string)
    requires names != []
  {
    if Due(s, hostCluster, names, used, c) > 0.0
    then |list| == 1 && IsPart(list[0], s, Due(s, hostCluster, names, used, c))
         && (|Mounting(s.mounts, hostCluster)| == 1 ==> list[0] == s)
    else list == []
  }

  /** Datastore by datastore. */
  ghost predicate ReceivesAll(list: seq<Store>, stores: seq<Store>, hostCluster: map<string, string>,
                              names: seq<string>, used: map<string, real>, c: string)
    requires names != []
    decreases stores
  {
    if stores == [] then list == []
    else exists n :: 0 <= n <= |list|
                     && ReceivesAll(list[..n], stores[..|stores|-1], hostCluster, names, used, c)
                     && Receives(list[n..], stores[|stores|-1], hostCluster, names, used, c)
  }

  lemma {:induction false} EvenParts(s: Store, list: seq<string>, frac: real, whole: bool, c: string)
    requires Distinct(list)
    ensures PartsFor(s, EvenShares(list, frac, whole), c)
            == if c in list then [PartOf(s, Share(c, frac, whole))] else []
  {
    if list != [] {
      LastIsNew(list);
      var front := list[..|list|-1];
      EvenParts(s, front, frac, whole, c);
      assert EvenShares(list, frac, whole) == EvenShares(front, frac, whole) + [Share(list[|list|-1], frac, whole)];
      PartsPush(s, EvenShares(front, frac, whole), Share(list[|list|-1], frac, whole), c);
    }
  }

  lemma PartsPush(s: Store, shares: seq<Share>, last: Share, c: string)
    ensures PartsFor(s, shares + [last], c)
            == PartsFor(s, shares, c) + (if last.cluster == c then [PartOf(s, last)] else [])
  {
    assert (shares + [last])[..|shares|] == shares;
  }

  lemma {:induction false} UsedParts(s: Store, names: seq<string>, used: map<string, real>, total: real, c: string)
    requires Distinct(names) && total > 0.0
    ensures var frac := Fraction(UsedBy(c, used), total);
            PartsFor(s, UsedShares(names, used, total), c)
            == if c in names && frac > 0.0 then [PartOf(s, Share(c, frac, false))] else []
  {
    if names != [] {
      LastIsNew(names);
      var front, last := names[..|names|-1], names[|names|-1];
      UsedParts(s, front, used, total, c);
      PartsPush(s, UsedShares(front, used, total), Share(last, Fraction(UsedBy(last, used), total), false), c);
    }
  }

  lemma {:induction false} DistinctCount(list: seq<string>, all: set<string>)
    requires Distinct(list) && forall c :: c in list <==> c in all
    ensures |list| == |all|
  {
    if list == [] {
      assert all == {};
    } else {
      LastIsNew(list);
      var front, last := list[..|list|-1], list[|list|-1];
      DistinctCount(front, all - {last});
      assert all == (all - {last}) + {last};
    }
  }

  lemma MountsCounted(s: Store, hostCluster: map<string, string>)
    ensures var list, all := MountClusters(s.mounts, hostCluster), Mounting(s.mounts, hostCluster);
            Distinct(list) && |list| == |all| && forall c :: c in list <==> c in all
  {
    MountClustersMeaning(s.mounts, hostCluster);
    DistinctCount(MountClusters(s.mounts, hostCluster), Mounting(s.mounts, hostCluster));
  }

  lemma ScaledIsPart(s: Store, frac: real)
    ensures IsPart(Scaled(s, frac), s, frac)
  {
  }

  lemma WholeIsPart(s: Store)
    ensures IsPart(s, s, 1.0)
  {
  }

  /** One datastore's part for one cluster is what the cluster is due. */
  lemma PartsReceived(s: Store, hostCluster: map<string, string>, names: seq<string>, used: map<string, real>,
                      c: string)
    requires names != [] && Distinct(names)
    ensures Receives(PartsFor(s, SharesOf(s, hostCluster, names, used), c), s, hostCluster, names, used, c)
  {
    var mounted := MountClusters(s.mounts, hostCluster);
    MountsCounted(s, hostCluster);
    WholeIsPart(s);
    ScaledIsPart(s, Due(s, hostCluster, names, used, c));
    if mounted != [] {
      OneOver(|mounted|);
      EvenParts(s, mounted, 1.0 / |mounted| as real, |mounted| == 1, c);
    } else if Total(names, used) > 0.0 {
      UsedParts(s, names, used, Total(names, used), c);
    } else {
      OneOver(|names|);
      EvenParts(s, names, 1.0 / |names| as real, false, c);
    }
  }

  lemma OneOver(n: nat)
    requires n > 0
    ensures 1.0 / n as real > 0.0 && (n == 1 ==> 1.0 / n as real == 1.0)
  {
  }

  /** So is everything a cluster is handed. */
  lemma {:induction false} AllReceived(stores: seq<Store>, hostCluster: map<string, string>, names: seq<string>,
                                       used: map<string, real>, c: string)
    requires names != [] && Distinct(names)
    ensures ReceivesAll(StoresFor(stores, hostCluster, names, used, c), stores, hostCluster, names, used, c)
  {
    if stores != [] {
      var front, s := stores[..|stores|-1], stores[|stores|-1];
      AllReceived(front, hostCluster, names, used, c);
      PartsReceived(s, hostCluster, names, used, c);
      var had := StoresFor(front, hostCluster, names, used, c);
      var more := PartsFor(s, SharesOf(s, hostCluster, names, used), c);
      var list := StoresFor(stores, hostCluster, names, used, c);
      assert list == had + more && list[..|had|] == had && list[|had|..] == more;
    }
  }

  // ── the loops ─────────────────────────────────────────────────────────────

  type Buckets = map<string, seq<Store>>

  function Bucket(out: Buckets, c: string): seq<Store> {
    if c in out then out[c] else []
  }

  /** The buckets hold what they held and these parts of the store. */
  ghost predicate Handed(out: Buckets, out0: Buckets, s: Store, shares: seq<Share>) {
    forall c :: Bucket(out, c) == Bucket(out0, c) + PartsFor(s, shares, c)
  }

  lemma HandedPush(out: Buckets, out0: Buckets, s: Store, shares: seq<Share>, last: Share)
    requires Handed(out, out0, s, shares)
    ensures Handed(out[last.cluster := Bucket(out, last.cluster) + [PartOf(s, last)]], out0, s, shares + [last])
  {
    var more := shares + [last];
    assert more[..|more|-1] == shares && more[|more|-1] == last;
    var after := out[last.cluster := Bucket(out, last.cluster) + [PartOf(s, last)]];
    forall c ensures Bucket(after, c) == Bucket(out0, c) + PartsFor(s, more, c) {
      assert Bucket(out, c) == Bucket(out0, c) + PartsFor(s, shares, c);
    }
  }

  /** Hands one datastore's parts to the lists of their clusters. */
  method Append(out0: Buckets, s: Store, shares: seq<Share>) returns (out: Buckets)
    ensures out0.Keys <= out.Keys
    ensures Handed(out, out0, s, shares)
  {
    out := out0;
    for i := 0 to |shares|
      invariant out0.Keys <= out.Keys
      invariant Handed(out, out0, s, shares[..i])
    {
      assert shares[..i+1] == shares[..i] + [shares[i]];
      HandedPush(out, out0, s, shares[..i], shares[i]);
      out := out[shares[i].cluster := Bucket(out, shares[i].cluster) + [PartOf(s, shares[i])]];
    }
    assert shares[..|shares|] == shares;
  }

  method CollectMounts(mounts: seq<string>, hostCluster: map<string, string>) returns (seen: seq<string>)
    ensures seen == MountClusters(mounts, hostCluster)
  {
    seen := [];
    for i := 0 to |mounts|
      invariant seen == MountClusters(mounts[..i], hostCluster)
    {
      assert mounts[..i+1][..i] == mounts[..i];
      var m := mounts[i];
      if m in hostCluster && hostCluster[m] != "" && hostCluster[m] !in seen {
        seen := seen + [hostCluster[m]];
      }
    }
    assert mounts[..|mounts|] == mounts;
  }

  method AttributeDatastores(stores: seq<Store>, hostCluster: map<string, string>, names: seq<string>,
                             used: map<string, real>) returns (out: Buckets)
    requires names != []
    ensures forall c :: c in names ==> c in out
    ensures Distinct(names) ==> forall c :: ReceivesAll(Bucket(out, c), stores, hostCluster, names, used, c)
    ensures forall c :: Bucket(out, c) == StoresFor(stores, hostCluster, names, used, c)
  {
    out := map c | c in names :: [];
    for d := 0 to |stores|
      invariant forall c :: c in names ==> c in out
      invariant forall c :: Bucket(out, c) == StoresFor(stores[..d], hostCluster, names, used, c)
    {
      assert stores[..d+1][..d] == stores[..d];
      var mounted := CollectMounts(stores[d].mounts, hostCluster);
      var shares := SharesOf(stores[d], hostCluster, names, used);
      out := Append(out, stores[d], shares);
    }
    assert stores[..|stores|] == stores;
    if Distinct(names) {
      forall c ensures ReceivesAll(Bucket(out, c), stores, hostCluster, names, used, c) {
        AllReceived(stores, hostCluster, names, used, c);
      }
    }
  }

  // ── conservation ──────────────────────────────────────────────────────────

  function FracSum(shares: seq<Share>): real {
    if shares == [] then 0.0 else FracSum(shares[..|shares|-1]) + shares[|shares|-1].frac
  }

  lemma {:induction false} EvenFracSum(names: seq<string>, frac: real, whole: bool)
    ensures FracSum(EvenShares(names, frac, whole)) == |names| as real * frac
  {
    if names != [] {
      var shares := EvenShares(names, frac, whole);
      assert shares[..|shares|-1] == EvenShares(names[..|names|-1], frac, whole);
      EvenFracSum(names[..|names|-1], frac, whole);
    }
  }

  /** The positive part of the used storage. */
  function PositiveTotal(names: seq<string>, used: map<string, real>): real {
    if names == [] then 0.0
    else
      var u := UsedBy(names[|names|-1], used);
      PositiveTotal(names[..|names|-1], used) + (if u > 0.0 then u else 0.0)
  }

  lemma DivPositive(u: real, total: real)
    requires total > 0.0
    ensures Fraction(u, total) > 0.0 <==> u > 0.0
  {
    assert u == (u / total) * total;
  }

  lemma OverTotal(a: real, b: real, total: real)
    requires total > 0.0
    ensures Fraction(a, total) + Fraction(b, total) == Fraction(a + b, total)
  {
  }

  lemma FracPush(shares: seq<Share>, s: Share)
    ensures FracSum(shares + [s]) == FracSum(shares) + s.frac
  {
    assert (shares + [s])[..|shares|] == shares;
  }

  lemma {:induction false} UsedFracSum(names: seq<string>, used: map<string, real>, total: real)
    requires total > 0.0
    ensures FracSum(UsedShares(names, used, total)) == Fraction(PositiveTotal(names, used), total)
  {
    if names != [] {
      var front, c := names[..|names|-1], names[|names|-1];
      UsedFracSum(front, used, total);
      DivPositive(UsedBy(c, used), total);
      FracPush(UsedShares(front, used, total), Share(c, Fraction(UsedBy(c, used), total), false));
      OverTotal(PositiveTotal(front, used), UsedBy(c, used), total);
    }
  }

  lemma {:induction false} PositiveTotalExact(names: seq<string>, used: map<string, real>)
    ensures PositiveTotal(names, used) >= Total(names, used)
    ensures PositiveTotal(names, used) == Total(names, used)
            <==> forall i :: 0 <= i < |names| ==> UsedBy(names[i], used) >= 0.0
  {
    if names != [] {
      var n := |names| - 1;
      PositiveTotalExact(names[..n], used);
      assert forall i :: 0 <= i < n ==> names[..n][i] == names[i];
    }
  }

  predicate NonNegative(names: seq<string>, used: map<string, real>) {
    forall i :: 0 <= i < |names| ==> UsedBy(names[i], used) >= 0.0
  }

  lemma EvenAddUp(names: seq<string>, whole: bool)
    requires names != []
    ensures FracSum(EvenShares(names, 1.0 / |names| as real, whole)) == 1.0
  {
    EvenFracSum(names, 1.0 / |names| as real, whole);
  }

  lemma RatioIsOne(a: real, b: real)
    requires b > 0.0
    ensures a / b == 1.0 <==> a == b
  {
    assert a == (a / b) * b;
  }

  /** The fractions of one datastore add up to exactly one, unless it is shared
      by used storage and some cluster's used storage is negative. */
  lemma SharesAddUp(s: Store, hostCluster: map<string, string>, names: seq<string>, used: map<string, real>)
    requires names != []
    ensures FracSum(SharesOf(s, hostCluster, names, used)) == 1.0
            <==> MountClusters(s.mounts, hostCluster) != [] || Total(names, used) <= 0.0 || NonNegative(names, used)
  {
    var mounted := MountClusters(s.mounts, hostCluster);
    var total := Total(names, used);
    if mounted != [] {
      EvenAddUp(mounted, |mounted| == 1);
    } else if total > 0.0 {
      UsedFracSum(names, used, total);
      PositiveTotalExact(names, used);
      RatioIsOne(PositiveTotal(names, used), total);
    } else {
      EvenAddUp(names, false);
    }
  }

  // ── what the clusters are given in all ────────────────────────────────────

  datatype Field = Capacity | Used | Free

  function FieldOf(s: Store, field: Field): real {
    match field
    case Capacity => s.capacity.GetOr(0.0)
    case Used => s.used.GetOr(0.0)
    case Free => s.free.GetOr(0.0)
  }

  function SumReal(xs: seq<real>): real {
    if xs == [] then 0.0 else SumReal(xs[..|xs|-1]) + xs[|xs|-1]
  }

  lemma {:induction false} SumRealConcat(a: seq<real>, b: seq<real>)
    ensures SumReal(a + b) == SumReal(a) + SumReal(b)
  {
    if b == [] {
      assert a + b == a;
    } else {
      SumRealConcat(a, b[..|b|-1]);
      assert (a + b)[..|a+b|-1] == a + b[..|b|-1];
    }
  }

  function Values(stores: seq<Store>, field: Field): (r: seq<real>)
    ensures |r| == |stores| && forall i :: 0 <= i < |r| ==> r[i] == FieldOf(stores[i], field)
  {
    seq(|stores|, i requires 0 <= i < |stores| => FieldOf(stores[i], field))
  }

  function Sum(stores: seq<Store>, field: Field): real {
    SumReal(Values(stores, field))
  }

  lemma SumConcat(a: seq<Store>, b: seq<Store>, field: Field)
    ensures Sum(a + b, field) == Sum(a, field) + Sum(b, field)
  {
    assert Values(a + b, field) == Values(a, field) + Values(b, field);
    SumRealConcat(Values(a, field), Values(b, field));
  }

  lemma SumOne(s: Store, field: Field)
    ensures Sum([s], field) == FieldOf(s, field) && Sum([], field) == 0.0
  {
    assert SumReal(Values([s], field)[..0]) == 0.0;
  }

  function Parts(s: Store, shares: seq<Share>): (r: seq<Store>)
    ensures |r| == |shares| && forall i :: 0 <= i < |r| ==> r[i] == PartOf(s, shares[i])
  {
    seq(|shares|, i requires 0 <= i < |shares| => PartOf(s, shares[i]))
  }

  predicate IsIdealAt(v: real, shares: seq<Share>, qs: seq<real>, i: nat)
    requires i < |shares| == |qs|
  {
    qs[i] == v * shares[i].frac
  }

  /** qs are the parts of the amount v before rounding. */
  ghost predicate IsIdeal(v: real, shares: seq<Share>, qs: seq<real>) {
    |qs| == |shares| && forall i {:trigger IsIdealAt(v, shares, qs, i)} :: 0 <= i < |qs| ==> IsIdealAt(v, shares, qs, i)
  }

  lemma {:induction false} IdealExists(v: real, shares: seq<Share>) returns (qs: seq<real>)
    ensures IsIdeal(v, shares, qs)
    ensures SumReal(qs) == v * FracSum(shares)
  {
    qs := [];
    if shares != [] {
      var front, last := shares[..|shares|-1], shares[|shares|-1];
      var rest := IdealExists(v, front);
      assert shares == front + [last];
      qs := IdealPush(v, front, last, rest, v * last.frac);
    }
  }

  lemma IdealPush(v: real, front: seq<Share>, last: Share, rest: seq<real>, q: real) returns (qs: seq<real>)
    requires IsIdeal(v, front, rest) && q == v * last.frac
    ensures IsIdeal(v, front + [last], qs)
    ensures SumReal(rest) == v * FracSum(front) ==> SumReal(qs) == v * FracSum(front + [last])
  {
    qs := rest + [q];
    forall i {:trigger IsIdealAt(v, front + [last], qs, i)} | 0 <= i < |qs|
      ensures IsIdealAt(v, front + [last], qs, i)
    {
      if i < |rest| { assert IsIdealAt(v, front, rest, i); }
    }
    SumPush(rest, q);
    FracPush(front, last);
    Distribute(v, FracSum(front), last.frac);
  }

  lemma SumPush(xs: seq<real>, x: real)
    ensures SumReal(xs + [x]) == SumReal(xs) + x
  {
    assert (xs + [x])[..|xs|] == xs;
  }

  predicate Within(x: real, y: real, bound: real) {
    -bound <= x - y <= bound
  }

  lemma {:induction false} SumsWithin(ps: seq<real>, qs: seq<real>, eps: real)
    requires |ps| == |qs| && forall i :: 0 <= i < |ps| ==> Within(ps[i], qs[i], eps)
    ensures Within(SumReal(ps), SumReal(qs), eps * |ps| as real)
  {
    if ps != [] {
      SumsWithin(ps[..|ps|-1], qs[..|qs|-1], eps);
      assert eps * |ps| as real == eps * (|ps| - 1) as real + eps;
    }
  }

  /** Rounding moves each part by at most half a hundredth. */
  lemma PartsDrift(s: Store, shares: seq<Share>, field: Field, qs: seq<real>)
    requires forall i :: 0 <= i < |shares| && shares[i].whole ==> shares[i].frac == 1.0
    requires IsIdeal(FieldOf(s, field), shares, qs)
    ensures Within(Sum(Parts(s, shares), field), SumReal(qs), 0.005 * |shares| as real)
  {
    var ps := Values(Parts(s, shares), field);
    forall i | 0 <= i < |shares|
      ensures Within(ps[i], qs[i], 0.005)
    {
      PartAtDrift(s, shares, field, qs, i);
    }
    SumsWithin(ps, qs, 0.005);
  }

  lemma PartAtDrift(s: Store, shares: seq<Share>, field: Field, qs: seq<real>, i: nat)
    requires i < |shares| && (shares[i].whole ==> shares[i].frac == 1.0)
    requires IsIdeal(FieldOf(s, field), shares, qs)
    ensures Within(FieldOf(PartOf(s, shares[i]), field), qs[i], 0.005)
  {
    assert IsIdealAt(FieldOf(s, field), shares, qs, i);
    PartDrift(s, shares[i], field, qs[i]);
  }

  lemma Distribute(v: real, a: real, b: real)
    ensures v * (a + b) == v * a + v * b
  {
  }

  lemma PartDrift(s: Store, share: Share, field: Field, q: real)
    requires share.whole ==> share.frac == 1.0
    requires q == FieldOf(s, field) * share.frac
    ensures Within(FieldOf(PartOf(s, share), field), q, 0.005)
  {
    if !share.whole {
      match field
      case Capacity => AmountDrift(s.capacity, share.frac, q);
      case Used => AmountDrift(s.used, share.frac, q);
      case Free => AmountDrift(s.free, share.frac, q);
    }
  }

  lemma AmountDrift(x: Option<real>, frac: real, q: real)
    requires q == x.GetOr(0.0) * frac
    ensures Within(ScaleOpt(x, frac).GetOr(0.0), q, 0.005)
  {
  }

  lemma WholeShares(s: Store, hostCluster: map<string, string>, names: seq<string>, used: map<string, real>)
    requires names != []
    ensures var shares := SharesOf(s, hostCluster, names, used);
            forall i :: 0 <= i < |shares| && shares[i].whole ==> shares[i].frac == 1.0 && |shares| == 1
  {
    var mounted := MountClusters(s.mounts, hostCluster);
    if mounted == [] && Total(names, used) > 0.0 {
      UsedSharesScaled(names, used, Total(names, used));
    }
  }

  lemma {:induction false} UsedSharesScaled(names: seq<string>, used: map<string, real>, total: real)
    requires total > 0.0
    ensures forall i :: 0 <= i < |UsedShares(names, used, total)| ==> !UsedShares(names, used, total)[i].whole
  {
    if names != [] {
      UsedSharesScaled(names[..|names|-1], used, total);
    }
  }

  /** One datastore: its parts add up to it within half a hundredth a part. */
  lemma DatastoreConserved(s: Store, hostCluster: map<string, string>, names: seq<string>,
                           used: map<string, real>, field: Field)
    requires names != [] && NonNegative(names, used)
    ensures var shares := SharesOf(s, hostCluster, names, used);
            Within(Sum(Parts(s, shares), field), FieldOf(s, field), 0.005 * |shares| as real)
    ensures |MountClusters(s.mounts, hostCluster)| == 1 ==>
            Parts(s, SharesOf(s, hostCluster, names, used)) == [s]
  {
    SharesAddUp(s, hostCluster, names, used);
    WholeShares(s, hostCluster, names, used);
    var shares := SharesOf(s, hostCluster, names, used);
    var qs := IdealExists(FieldOf(s, field), shares);
    PartsDrift(s, shares, field, qs);
  }

  function Counts(stores: seq<Store>): (r: seq<real>)
    ensures |r| == |stores| && forall i :: 0 <= i < |r| ==> r[i] == stores[i].vmCount.GetOr(0) as real
  {
    seq(|stores|, i requires 0 <= i < |stores| => stores[i].vmCount.GetOr(0) as real)
  }

  /** VM counts are whole numbers, so each part may be off by a half. */
  lemma VmCountDrift(s: Store, shares: seq<Share>, n: int, qs: seq<real>)
    requires s.vmCount == Some(n) && IsIdeal(n as real, shares, qs)
    requires forall i :: 0 <= i < |shares| && shares[i].whole ==> shares[i].frac == 1.0
    ensures Within(SumReal(Counts(Parts(s, shares))), SumReal(qs), 0.5 * |shares| as real)
  {
    var ps := Counts(Parts(s, shares));
    forall i | 0 <= i < |shares|
      ensures Within(ps[i], qs[i], 0.5)
    {
      CountAtDrift(s, shares, n, qs, i);
    }
    SumsWithin(ps, qs, 0.5);
  }

  lemma CountAtDrift(s: Store, shares: seq<Share>, n: int, qs: seq<real>, i: nat)
    requires s.vmCount == Some(n) && i < |shares| && (shares[i].whole ==> shares[i].frac == 1.0)
    requires IsIdeal(n as real, shares, qs)
    ensures Within(PartOf(s, shares[i]).vmCount.GetOr(0) as real, qs[i], 0.5)
  {
    assert IsIdealAt(n as real, shares, qs, i);
  }

  /** The parts' VM counts add up to the datastore's within a half each. */
  lemma VmCountConserved(s: Store, hostCluster: map<string, string>, names: seq<string>, used: map<string, real>,
                         n: int)
    requires names != [] && NonNegative(names, used) && s.vmCount == Some(n)
    ensures var shares := SharesOf(s, hostCluster, names, used);
            Within(SumReal(Counts(Parts(s, shares))), n as real, 0.5 * |shares| as real)
  {
    var shares := SharesOf(s, hostCluster, names, used);
    SharesAddUp(s, hostCluster, names, used);
    WholeShares(s, hostCluster, names, used);
    var qs := IdealExists(n as real, shares);
    VmCountDrift(s, shares, n, qs);
  }

  // ── over all datastores and clusters ──────────────────────────────────────

  function GivenOf(cs: seq<string>, s: Store, shares: seq<Share>, field: Field): real {
    if cs == [] then 0.0
    else GivenOf(cs[..|cs|-1], s, shares, field) + Sum(PartsFor(s, shares, cs[|cs|-1]), field)
  }

  function CountOf(cs: seq<string>, s: Store, shares: seq<Share>): nat {
    if cs == [] then 0 else CountOf(cs[..|cs|-1], s, shares) + |PartsFor(s, shares, cs[|cs|-1])|
  }

  /** One more share adds its part to its own cluster's list and to no other. */
  lemma {:induction false} ShareGoesToOne(cs: seq<string>, s: Store, shares: seq<Share>, field: Field)
    requires shares != [] && Distinct(cs)
    ensures var front, last := shares[..|shares|-1], shares[|shares|-1];
            var hit := last.cluster in cs;
            && GivenOf(cs, s, shares, field)
               == GivenOf(cs, s, front, field) + (if hit then FieldOf(PartOf(s, last), field) else 0.0)
            && CountOf(cs, s, shares) == CountOf(cs, s, front) + (if hit then 1 else 0)
  {
    if cs != [] {
      ShareGoesToOne(cs[..|cs|-1], s, shares, field);
      var last := shares[|shares|-1];
      assert cs == cs[..|cs|-1] + [cs[|cs|-1]];
      var rest := PartsFor(s, shares[..|shares|-1], cs[|cs|-1]);
      SumConcat(rest, [PartOf(s, last)], field);
      SumOne(PartOf(s, last), field);
    }
  }

  lemma {:induction false} NothingGiven(cs: seq<string>, s: Store, field: Field)
    ensures GivenOf(cs, s, [], field) == 0.0 && CountOf(cs, s, []) == 0
  {
    if cs != [] {
      NothingGiven(cs[..|cs|-1], s, field);
      SumOne(s, field);
    }
  }

  lemma {:induction false} GivenIsParts(cs: seq<string>, s: Store, shares: seq<Share>, field: Field)
    requires Distinct(cs) && forall i :: 0 <= i < |shares| ==> shares[i].cluster in cs
    ensures GivenOf(cs, s, shares, field) == Sum(Parts(s, shares), field)
    ensures CountOf(cs, s, shares) == |shares|
  {
    if shares == [] {
      NothingGiven(cs, s, field);
    } else {
      var n := |shares| - 1;
      GivenIsParts(cs, s, shares[..n], field);
      ShareGoesToOne(cs, s, shares, field);
      assert Parts(s, shares) == Parts(s, shares[..n]) + [PartOf(s, shares[n])];
      SumConcat(Parts(s, shares[..n]), [PartOf(s, shares[n])], field);
      SumOne(PartOf(s, shares[n]), field);
    }
  }

  function Given(cs: seq<string>, stores: seq<Store>, hostCluster: map<string, string>, names: seq<string>,
                 used: map<string, real>, field: Field): real
    requires names != []
  {
    if cs == [] then 0.0
    else Given(cs[..|cs|-1], stores, hostCluster, names, used, field)
         + Sum(StoresFor(stores, hostCluster, names, used, cs[|cs|-1]), field)
  }

  function PartCount(cs: seq<string>, stores: seq<Store>, hostCluster: map<string, string>, names: seq<string>,
                     used: map<string, real>): nat
    requires names != []
  {
    if cs == [] then 0
    else PartCount(cs[..|cs|-1], stores, hostCluster, names, used)
         + |StoresFor(stores, hostCluster, names, used, cs[|cs|-1])|
  }

  lemma {:induction false} OneMoreStore(cs: seq<string>, stores: seq<Store>, hostCluster: map<string, string>,
                                        names: seq<string>, used: map<string, real>, field: Field)
    requires names != [] && stores != []
    ensures var front, s := stores[..|stores|-1], stores[|stores|-1];
            var shares := SharesOf(s, hostCluster, names, used);
            && Given(cs, stores, hostCluster, names, used, field)
               == Given(cs, front, hostCluster, names, used, field) + GivenOf(cs, s, shares, field)
            && PartCount(cs, stores, hostCluster, names, used)
               == PartCount(cs, front, hostCluster, names, used) + CountOf(cs, s, shares)
  {
    if cs != [] {
      OneMoreStore(cs[..|cs|-1], stores, hostCluster, names, used, field);
      var c := cs[|cs|-1];
      var front, s := stores[..|stores|-1], stores[|stores|-1];
      SumConcat(StoresFor(front, hostCluster, names, used, c),
                PartsFor(s, SharesOf(s, hostCluster, names, used), c), field);
    }
  }

  lemma {:induction false} NoStores(cs: seq<string>, hostCluster: map<string, string>, names: seq<string>,
                                    used: map<string, real>, field: Field)
    requires names != []
    ensures Given(cs, [], hostCluster, names, used, field) == 0.0
    ensures PartCount(cs, [], hostCluster, names, used) == 0
  {
    if cs != [] {
      NoStores(cs[..|cs|-1], hostCluster, names, used, field);
      assert Values([], field) == [];
    }
  }

  /** The clusters a datastore can reach. */
  predicate Covers(cs: seq<string>, hostCluster: map<string, string>, names: seq<string>) {
    && (forall c :: c in names ==> c in cs)
    && (forall h :: h in hostCluster && hostCluster[h] != "" ==> hostCluster[h] in cs)
  }

  lemma {:induction false} MountClustersMeaning(mounts: seq<string>, hostCluster: map<string, string>)
    ensures Distinct(MountClusters(mounts, hostCluster))
    ensures forall c :: c in MountClusters(mounts, hostCluster) <==>
              c != "" && exists m :: m in mounts && m in hostCluster && hostCluster[m] == c
  {
    if mounts != [] {
      MountClustersMeaning(mounts[..|mounts|-1], hostCluster);
      assert mounts == mounts[..|mounts|-1] + [mounts[|mounts|-1]];
    }
  }

  lemma {:induction false} UsedSharesReach(names: seq<string>, used: map<string, real>, total: real)
    requires total > 0.0
    ensures forall i :: 0 <= i < |UsedShares(names, used, total)| ==> UsedShares(names, used, total)[i].cluster in names
  {
    if names != [] {
      UsedSharesReach(names[..|names|-1], used, total);
      assert names == names[..|names|-1] + [names[|names|-1]];
    }
  }

  /** A part goes only to the clusters named, or to a mounting host's own. */
  lemma SharesReach(s: Store, hostCluster: map<string, string>, names: seq<string>, used: map<string, real>,
                    cs: seq<string>)
    requires names != [] && Covers(cs, hostCluster, names)
    ensures var shares := SharesOf(s, hostCluster, names, used);
            forall i :: 0 <= i < |shares| ==> shares[i].cluster in cs
  {
    MountClustersMeaning(s.mounts, hostCluster);
    var mounted := MountClusters(s.mounts, hostCluster);
    if mounted != [] {
      forall i | 0 <= i < |mounted| ensures mounted[i] in cs {
        assert mounted[i] in mounted;
      }
    } else if Total(names, used) > 0.0 {
      UsedSharesReach(names, used, Total(names, used));
    }
  }

  /** All that the clusters receive is all there was: capacity, used and free
      space are each conserved within half a hundredth per part given out. */
  lemma {:induction false} CapacityConserved(cs: seq<string>, stores: seq<Store>, hostCluster: map<string, string>,
                                             names: seq<string>, used: map<string, real>, field: Field)
    requires names != [] && NonNegative(names, used) && Distinct(cs) && Covers(cs, hostCluster, names)
    ensures Within(Given(cs, stores, hostCluster, names, used, field), Sum(stores, field),
                   0.005 * PartCount(cs, stores, hostCluster, names, used) as real)
  {
    if stores == [] {
      NoStores(cs, hostCluster, names, used, field);
    } else {
      var front, s := stores[..|stores|-1], stores[|stores|-1];
      var shares := SharesOf(s, hostCluster, names, used);
      CapacityConserved(cs, front, hostCluster, names, used, field);
      OneMoreStore(cs, stores, hostCluster, names, used, field);
      SharesReach(s, hostCluster, names, used, cs);
      GivenIsParts(cs, s, shares, field);
      DatastoreConserved(s, hostCluster, names, used, field);
      assert stores == front + [s];
      SumConcat(front, [s], field);
      SumOne(s, field);
    }
  }
}
