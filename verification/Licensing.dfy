/** Licence prices: a capped ladder of core bands, or one flat Essentials kit per cluster. */
module Licensing {
  import opened Text
  import opened ClusterLayouts

  /** Price of one node by core band. */
  type Bands = map<int, real>

  datatype BandKey = BandKey(edition: string, term: int, support: string)
  datatype FlatKey = FlatKey(kind: string, term: int)
  datatype Book = Book(bands: map<BandKey, Bands>, flats: map<FlatKey, real>)

  const MAX_NODES := 3
  const MAX_RAM_GB := 256.0

  function ClampTerm(years: Option<int>): (term: int)
    ensures 1 <= term <= 5
    ensures years.None? ==> term == 5
    ensures years.Some? && 1 <= years.value <= 5 ==> term == years.value
    ensures years.Some? && !(1 <= years.value <= 5) ==>
              (term == 1 <==> years.value < 1) && (term == 5 <==> years.value > 5)
  {
    var t := if years.Some? then years.value else 5;
    if t > 5 then 5 else if t < 1 then 1 else t
  }

  // ── the ladder ────────────────────────────────────────────────────────────

  lemma Pick<T>(s: set<T>) returns (x: T)
    requires s != {}
    ensures x in s
  {
    x :| x in s;
  }

  lemma HasLeast(s: set<int>) returns (m: int)
    requires s != {}
    ensures m in s && forall x :: x in s ==> m <= x
    decreases s
  {
    var x := Pick(s);
    m := x;
    if s - {x} != {} {
      var n := HasLeast(s - {x});
      assert forall y :: y in s ==> y == x || y in s - {x};
      m := if n < x then n else x;
    } else {
      forall y | y in s ensures y == x {
        assert y == x || y in s - {x};
      }
    }
  }

  /** The bands in ascending order. */
  function Ladder(s: set<int>): (l: seq<int>)
    ensures forall i, j :: 0 <= i < j < |l| ==> l[i] < l[j]
    ensures forall x :: x in l <==> x in s
    decreases s
  {
    if s == {} then []
    else
      assert exists m :: m in s && forall x :: x in s ==> m <= x by { var m := HasLeast(s); }
      var m :| m in s && forall x :: x in s ==> m <= x;
      [m] + Ladder(s - {m})
  }

  function FirstCovering(ladder: seq<int>, cores: real): (band: Option<int>)
    ensures band.Some? ==> band.value in ladder && cores <= band.value as real
  {
    if ladder == [] then None
    else if cores <= ladder[0] as real then Some(ladder[0])
    else FirstCovering(ladder[1..], cores)
  }

  function Top(bands: Bands): (top: int)
    requires |bands.Keys| > 0
    ensures top in bands && forall b :: b in bands ==> b <= top
  {
    var l := Ladder(bands.Keys);
    assert l != [] by { NonEmpty(bands.Keys); }
    assert l[|l|-1] in bands.Keys;
    assert forall b :: b in bands ==> b <= l[|l|-1] by {
      forall b | b in bands ensures b <= l[|l|-1] {
        assert b in l;
      }
    }
    l[|l|-1]
  }

  lemma NonEmpty(s: set<int>)
    requires |s| > 0
    ensures Ladder(s) != []
  {
    var x := Pick(s);
    assert x in Ladder(s);
  }

  /** The price of one node and whether it lies above the ladder. */
  function BandPrice(bands: Bands, cores: real): (r: (Option<real>, bool))
    ensures r.0.Some? <==> |bands.Keys| > 0
  {
    if |bands.Keys| == 0 then (None, false)
    else
      var band := FirstCovering(Ladder(bands.Keys), cores);
      if band.Some? then (Some(bands[band.value]), false)
      else (Some(bands[Top(bands)]), true)
  }

  function FirstAtPrice(ladder: seq<int>, bands: Bands, price: real): (band: Option<int>)
    requires forall i :: 0 <= i < |ladder| ==> ladder[i] in bands
    ensures band.Some? ==> band.value in ladder && bands[band.value] == price
  {
    if ladder == [] then None
    else if bands[ladder[0]] == price then Some(ladder[0])
    else FirstAtPrice(ladder[1..], bands, price)
  }

  datatype Free = Free(first: int, last: int)

  /** The range of cores past the first top-priced band, which the note calls free. */
  function CapNote(bands: Bands, cores: real): Option<Free> {
    if |bands.Keys| == 0 then None
    else
      var cap := FirstAtPrice(Ladder(bands.Keys), bands, bands[Top(bands)]);
      if cap.None? || cores <= cap.value as real then None else Some(Free(cap.value + 1, Top(bands)))
  }

  // ── the Essentials kit ────────────────────────────────────────────────────

  datatype NearMiss = NoMiss | Stacked(clusters: nat) | TooManyNodes(nodes: int) | TooMuchRam(over: real)

  function Eligibility(layout: seq<int>, ram: Option<real>): (bool, NearMiss) {
    if |layout| != 1 then
      var eachFits := forall i :: 0 <= i < |layout| ==> layout[i] <= MAX_NODES;
      (false, if |layout| > 1 && eachFits then Stacked(|layout|) else NoMiss)
    else
      var gb := if ram.Some? then ram.value else 0.0;
      if layout[0] > MAX_NODES then (false, if layout[0] == MAX_NODES + 1 then TooManyNodes(layout[0]) else NoMiss)
      else if gb > MAX_RAM_GB then (false, TooMuchRam(gb - MAX_RAM_GB))
      else (true, NoMiss)
  }

  /** The bands of one edition and term, from the other support tier when its own has none. */
  function BandMap(book: Book, edition: string, term: Option<int>, support: string): Bands {
    var key := BandKey(edition, ClampTerm(term), support);
    var other := BandKey(edition, ClampTerm(term), if support == "SS" then "PS" else "SS");
    if key in book.bands then book.bands[key] else if other in book.bands then book.bands[other] else map[]
  }

  function FlatPrice(book: Book, kind: string, term: Option<int>): Option<real> {
    if FlatKey(kind, ClampTerm(term)) in book.flats then Some(book.flats[FlatKey(kind, ClampTerm(term))]) else None
  }

  function KindFor(support: string): string {
    if support == "PS" then "PE" else "SE"
  }

  datatype Kit = NoKit | Kit(price: real, kind: string)

  function Essentials(book: Book, term: Option<int>, support: string): Kit {
    var own := FlatPrice(book, KindFor(support), term);
    if own.Some? then Kit(own.value, KindFor(support))
    else
      var se := FlatPrice(book, "SE", term);
      if se.Some? then Kit(se.value, "SE")
      else
        var pe := FlatPrice(book, "PE", term);
        if pe.Some? then Kit(pe.value, "PE") else NoKit
  }

  // ── one sizing ────────────────────────────────────────────────────────────

  datatype Required = Nothing
    | PerNode(cores: real, bandCores: int, edition: string, nodes: int, term: int)
    | KitFor(kind: string, nodes: int, term: int)

  datatype Quote = Quote(eur: Option<real>, required: Required, above: bool, free: Option<Free>,
                         miss: NearMiss, eligible: bool, applied: Option<bool>)

  datatype Sizing = Sizing(layout: seq<int>, cores: real, ram: Option<real>,
                           term: Option<int>, edition: string, support: string)

  function TotalFor(bands: Bands, cores: real, nodes: int): Option<real> {
    Times(BandPrice(bands, cores).0, nodes)
  }

  function Times(price: Option<real>, nodes: int): Option<real> {
    if price.Some? then Some(price.value * nodes as real) else None
  }

  function ClusterLicense(book: Book, s: Sizing): Quote {
    var nodes := Sum(s.layout);
    if |book.bands.Keys| == 0 || nodes <= 0 then Quote(None, Nothing, false, None, NoMiss, false, None)
    else
      var bands := BandMap(book, s.edition, s.term, s.support);
      var above := BandPrice(bands, s.cores).1;
      var free := CapNote(bands, s.cores);
      var total := TotalFor(bands, s.cores, nodes);
      var (eligible, miss) := Eligibility(s.layout, s.ram);
      var kit := if eligible then Essentials(book, s.term, s.support) else NoKit;
      Settle(s, nodes, total, Reported(bands, s.cores), kit).(above := above, free := free, miss := miss)
  }

  /** The kit when it is cheaper, else the per-node total. */
  function Settle(s: Sizing, nodes: int, total: Option<real>, reported: Option<int>, kit: Kit): Quote
    requires total.Some? ==> reported.Some?
  {
    if kit.Kit? && (total.None? || kit.price < total.value) then
      Quote(Some(kit.price), KitFor(kit.kind, nodes, ClampTerm(s.term)), false, None, NoMiss, true, Some(true))
    else
      var applied := if kit.Kit? then Some(false) else None;
      if total.None? then Quote(None, Nothing, false, None, NoMiss, kit.Kit?, applied)
      else
        Quote(total, PerNode(s.cores, reported.value, s.edition, nodes, ClampTerm(s.term)),
              false, None, NoMiss, kit.Kit?, applied)
  }

  function Reported(bands: Bands, cores: real): (reported: Option<int>)
    ensures reported.Some? <==> |bands.Keys| > 0
  {
    if |bands.Keys| == 0 then None else Some(ReportedBand(bands, FirstCovering(Ladder(bands.Keys), cores)))
  }

  /** The covering band, unless there is none or it is 0: then the top band. */
  function ReportedBand(bands: Bands, band: Option<int>): (reported: int)
    requires |bands.Keys| > 0
    requires band.Some? ==> band.value in bands
    ensures reported in bands
  {
    if band.Some? && band.value != 0 then band.value else Top(bands)
  }

  // ── what a node costs ─────────────────────────────────────────────────────

  /** The smallest band that covers the cores. */
  ghost predicate Covers(bands: Bands, cores: real, band: int) {
    && band in bands && cores <= band as real
    && forall b :: b in bands && cores <= b as real ==> band <= b
  }

  ghost predicate AboveLadder(bands: Bands, cores: real) {
    forall b :: b in bands ==> b as real < cores
  }

  lemma {:induction false} FirstCoveringMeaning(ladder: seq<int>, cores: real)
    requires forall i, j :: 0 <= i < j < |ladder| ==> ladder[i] < ladder[j]
    ensures var band := FirstCovering(ladder, cores);
            if band.Some? then forall b :: b in ladder && cores <= b as real ==> band.value <= b
            else forall b :: b in ladder ==> (b as real) < cores
  {
    if ladder != [] && cores > ladder[0] as real {
      FirstCoveringMeaning(ladder[1..], cores);
      assert forall b :: b in ladder ==> b == ladder[0] || b in ladder[1..];
    } else if ladder != [] {
      forall b | b in ladder ensures ladder[0] <= b {
        var i :| 0 <= i < |ladder| && ladder[i] == b;
      }
    }
  }

  /** A node pays for the smallest band covering its cores, and for the top band above the ladder. */
  lemma BandPriceMeaning(bands: Bands, cores: real)
    requires |bands.Keys| > 0
    ensures BandPrice(bands, cores).1 <==> AboveLadder(bands, cores)
    ensures BandPrice(bands, cores).1 ==> BandPrice(bands, cores).0 == Some(bands[Top(bands)])
    ensures !BandPrice(bands, cores).1 ==>
              exists b :: Covers(bands, cores, b) && BandPrice(bands, cores).0 == Some(bands[b])
  {
    var l := Ladder(bands.Keys);
    FirstCoveringMeaning(l, cores);
    var band := FirstCovering(l, cores);
    if band.Some? {
      assert Covers(bands, cores, band.value);
    }
  }

  ghost predicate Ascending(bands: Bands) {
    forall a, b :: a in bands && b in bands && a <= b ==> bands[a] <= bands[b]
  }

  ghost predicate NonNegative(bands: Bands) {
    forall b :: b in bands ==> bands[b] >= 0.0
  }

  lemma MoreCoresCostMore(bands: Bands, a: real, b: real)
    requires |bands.Keys| > 0 && Ascending(bands) && a <= b
    ensures BandPrice(bands, a).0.value <= BandPrice(bands, b).0.value
  {
    BandPriceMeaning(bands, a);
    BandPriceMeaning(bands, b);
  }

  // ── the cap note ──────────────────────────────────────────────────────────

  /** The least band priced like the top one. */
  ghost predicate IsCap(bands: Bands, cap: int) {
    && |bands.Keys| > 0 && cap in bands && bands[cap] == bands[Top(bands)]
    && forall b :: b in bands && bands[b] == bands[Top(bands)] ==> cap <= b
  }

  lemma {:induction false} FirstAtPriceMeaning(ladder: seq<int>, bands: Bands, price: real)
    requires forall i :: 0 <= i < |ladder| ==> ladder[i] in bands
    requires forall i, j :: 0 <= i < j < |ladder| ==> ladder[i] < ladder[j]
    ensures var band := FirstAtPrice(ladder, bands, price);
            if band.Some? then forall b :: b in ladder && bands[b] == price ==> band.value <= b
            else forall b :: b in ladder ==> bands[b] != price
  {
    if ladder != [] && bands[ladder[0]] != price {
      FirstAtPriceMeaning(ladder[1..], bands, price);
      assert forall b :: b in ladder ==> b == ladder[0] || b in ladder[1..];
    } else if ladder != [] {
      forall b | b in ladder ensures ladder[0] <= b {
        var i :| 0 <= i < |ladder| && ladder[i] == b;
      }
    }
  }

  lemma CapExists(bands: Bands) returns (cap: int)
    requires |bands.Keys| > 0
    ensures IsCap(bands, cap) && FirstAtPrice(Ladder(bands.Keys), bands, bands[Top(bands)]) == Some(cap)
  {
    var l := Ladder(bands.Keys);
    var price := bands[Top(bands)];
    FirstAtPriceMeaning(l, bands, price);
    assert Top(bands) in l;
    cap := FirstAtPrice(l, bands, price).value;
  }

  /** The note appears exactly above the cap, and names the cores from there to the top band. */
  lemma CapNoteAppears(bands: Bands, cores: real, cap: int)
    requires IsCap(bands, cap)
    ensures CapNote(bands, cores) == if cores > cap as real then Some(Free(cap + 1, Top(bands))) else None
  {
    var c := CapExists(bands);
    OneCap(bands, c, cap);
    NoteAt(bands, cores, cap);
  }

  lemma NoteAt(bands: Bands, cores: real, cap: int)
    requires |bands.Keys| > 0 && FirstAtPrice(Ladder(bands.Keys), bands, bands[Top(bands)]) == Some(cap)
    ensures CapNote(bands, cores) == if cores > cap as real then Some(Free(cap + 1, Top(bands))) else None
  {
  }

  lemma OneCap(bands: Bands, a: int, b: int)
    requires IsCap(bands, a) && IsCap(bands, b)
    ensures a == b
  {
  }

  /** Every band from here up has this band's price. */
  ghost predicate FlatAbove(bands: Bands, cap: int)
    requires cap in bands
  {
    forall b :: b in bands && b >= cap ==> bands[b] == bands[cap]
  }

  lemma FlatPriceAbove(bands: Bands, cap: int, x: real)
    requires cap in bands && FlatAbove(bands, cap) && x >= cap as real
    ensures BandPrice(bands, x).0 == Some(bands[cap])
  {
    BandPriceMeaning(bands, x);
    if BandPrice(bands, x).1 {
      assert bands[Top(bands)] == bands[cap];
    } else {
      var b :| Covers(bands, x, b) && BandPrice(bands, x).0 == Some(bands[b]);
      assert bands[b] == bands[cap];
    }
  }

  lemma PriceAtBand(bands: Bands, b: int)
    requires b in bands
    ensures BandPrice(bands, b as real).0 == Some(bands[b])
  {
    assert Covers(bands, b as real, b);
    CoveringBand(bands, b as real, b);
  }

  /** Cores above the cap are free exactly when no band above it is priced apart from it. */
  lemma CapNoteExactly(bands: Bands, cap: int)
    requires IsCap(bands, cap)
    ensures (forall x: real :: x >= cap as real ==> BandPrice(bands, x).0 == Some(bands[cap]))
            <==> FlatAbove(bands, cap)
  {
    if FlatAbove(bands, cap) {
      forall x: real | x >= cap as real ensures BandPrice(bands, x).0 == Some(bands[cap]) {
        FlatPriceAbove(bands, cap, x);
      }
    } else {
      var b :| b in bands && b >= cap && bands[b] != bands[cap];
      PriceAtBand(bands, b);
      assert b as real >= cap as real;
    }
  }

  /** On an ascending ladder the cores named by the note really cost nothing; the range it names is empty when only the
      top band is at the cap. */
  lemma CapNoteHonest(bands: Bands, cores: real)
    requires Ascending(bands) && CapNote(bands, cores).Some?
    ensures var free := CapNote(bands, cores).value;
            forall x: real :: x >= free.first as real - 1.0 ==> BandPrice(bands, x).0 == BandPrice(bands, cores).0
  {
    var cap := CapExists(bands);
    CapNoteAppears(bands, cores, cap);
    forall b | b in bands && b >= cap ensures bands[b] == bands[cap] {
      assert bands[b] <= bands[Top(bands)];
    }
    assert FlatAbove(bands, cap);
    FlatPriceAbove(bands, cap, cores);
    forall x: real | x >= cap as real ensures BandPrice(bands, x).0 == Some(bands[cap]) {
      FlatPriceAbove(bands, cap, x);
    }
  }

  // ── near misses ───────────────────────────────────────────────────────────

  /** With one node fewer it qualifies, if its RAM does. */
  predicate OneNodeOver(layout: seq<int>, ram: Option<real>) {
    |layout| == 1 && (Eligibility([layout[0] - 1], ram).0 <==> (ram.Some? ==> ram.value <= MAX_RAM_GB))
  }

  /** It qualifies with just so much less RAM a node. */
  ghost predicate RamOver(layout: seq<int>, ram: Option<real>, over: real) {
    ram.Some? && forall gb: real :: Eligibility(layout, Some(gb)).0 <==> gb <= ram.value - over
  }

  /** A near miss names what is in the way: one node, so much RAM, or clusters that would each qualify alone. */
  lemma NearMissIsActionable(layout: seq<int>, ram: Option<real>)
    ensures var (eligible, miss) := Eligibility(layout, ram);
            && (eligible ==> miss == NoMiss)
            && (miss.TooManyNodes? <==> |layout| == 1 && layout[0] == 4)
            && (miss.TooManyNodes? ==> OneNodeOver(layout, ram))
            && (miss.TooMuchRam? <==> |layout| == 1 && layout[0] <= 3 && ram.Some? && ram.value > 256.0)
            && (miss.TooMuchRam? ==> RamOver(layout, ram, miss.over))
            && (eligible <==> |layout| == 1 && layout[0] <= 3 && (ram.Some? ==> ram.value <= 256.0))
            && (miss.Stacked? <==> |layout| >= 2 && forall i :: 0 <= i < |layout| ==> Eligibility([layout[i]], None).0)
  {
    if Eligibility(layout, ram).1.Stacked? {
      forall i | 0 <= i < |layout| ensures Eligibility([layout[i]], None).0 {
        assert layout[i] <= MAX_NODES;
      }
    } else if |layout| >= 2 {
      var i :| 0 <= i < |layout| && layout[i] > MAX_NODES;
      assert !Eligibility([layout[i]], None).0;
    }
  }

  // ── the support tier ──────────────────────────────────────────────────────

  /** The bands asked for are used whenever the book has them; only without them those of the other support tier are. */
  lemma AskedTierFirst(book: Book, s: Sizing)
    ensures var term := ClampTerm(s.term); var asked := BandKey(s.edition, term, s.support);
            var other := BandKey(s.edition, term, if s.support == "SS" then "PS" else "SS");
            && (asked in book.bands ==> PerNodeTotal(book, s) == TotalFor(book.bands[asked], s.cores, Sum(s.layout)))
            && (asked !in book.bands && other in book.bands ==>
                  PerNodeTotal(book, s) == TotalFor(book.bands[other], s.cores, Sum(s.layout)))
            && (asked !in book.bands && other !in book.bands ==> PerNodeTotal(book, s) == None)
  {
  }

  // ── what a sizing costs ───────────────────────────────────────────────────

  function PerNodeTotal(book: Book, s: Sizing): Option<real> {
    TotalFor(BandMap(book, s.edition, s.term, s.support), s.cores, Sum(s.layout))
  }

  /** The kit price that competes: none for more than one cluster, four nodes or too much RAM. */
  function KitTotal(book: Book, s: Sizing): Option<real> {
    if |s.layout| == 1 && s.layout[0] <= MAX_NODES && (s.ram.Some? ==> s.ram.value <= MAX_RAM_GB)
       && Essentials(book, s.term, s.support).Kit?
    then Some(Essentials(book, s.term, s.support).price) else None
  }

  function Cheaper(a: Option<real>, b: Option<real>): Option<real> {
    if a.None? then b else if b.None? then a else Some(if a.value <= b.value then a.value else b.value)
  }

  /** A priceable sizing costs the cheaper of its per-node total and the kit; the basis names the one that won, ties
      going per node. */
  lemma CostIsTheCheaper(book: Book, s: Sizing)
    requires |book.bands.Keys| > 0 && Sum(s.layout) > 0
    ensures var q := ClusterLicense(book, s);
            && q.eur == Cheaper(PerNodeTotal(book, s), KitTotal(book, s))
            && (q.required.KitFor? <==> KitTotal(book, s).Some? && KitTotal(book, s) != PerNodeTotal(book, s)
                                        && q.eur == KitTotal(book, s))
            && (q.required.PerNode? <==> PerNodeTotal(book, s).Some? && q.eur == PerNodeTotal(book, s))
            && (q.eligible <==> KitTotal(book, s).Some?)
  {
    LicenseSettles(book, s);
    KitTotalIs(book, s);
    CheaperSettles(s, Sum(s.layout), PerNodeTotal(book, s),
                   Reported(BandMap(book, s.edition, s.term, s.support), s.cores), KitOf(book, s));
  }

  function KitOf(book: Book, s: Sizing): Kit {
    if Eligibility(s.layout, s.ram).0 then Essentials(book, s.term, s.support) else NoKit
  }

  lemma KitTotalIs(book: Book, s: Sizing)
    ensures KitTotal(book, s) == if KitOf(book, s).Kit? then Some(KitOf(book, s).price) else None
  {
  }

  lemma LicenseSettles(book: Book, s: Sizing)
    requires |book.bands.Keys| > 0 && Sum(s.layout) > 0
    ensures var bands := BandMap(book, s.edition, s.term, s.support);
            && (PerNodeTotal(book, s).Some? ==> |bands.Keys| > 0)
            && var q := ClusterLicense(book, s);
            var settled := Settle(s, Sum(s.layout), PerNodeTotal(book, s), Reported(bands, s.cores), KitOf(book, s));
            q.eur == settled.eur && q.required == settled.required && q.eligible == settled.eligible
  {
  }

  lemma CheaperSettles(s: Sizing, nodes: int, total: Option<real>, reported: Option<int>, kit: Kit)
    requires total.Some? ==> reported.Some?
    ensures var q := Settle(s, nodes, total, reported, kit); var price := if kit.Kit? then Some(kit.price) else None;
            && q.eur == Cheaper(total, price)
            && (q.required.KitFor? <==> price.Some? && price != total && q.eur == price)
            && (q.required.PerNode? <==> total.Some? && q.eur == total)
            && (q.eligible <==> price.Some?)
  {
  }

  /** The kit is of the support tier asked for whenever that tier has a price. */
  lemma KitFollowsSupport(book: Book, s: Sizing)
    requires ClusterLicense(book, s).required.KitFor?
    requires s.support == "SS" || s.support == "PS"
    ensures var kind := ClusterLicense(book, s).required.kind;
            && kind in ["SE", "PE"]
            && ClusterLicense(book, s).eur == FlatPrice(book, kind, s.term)
            && var own := if s.support == "PS" then "PE" else "SE";
            (kind == own <==> FlatPrice(book, own, s.term).Some?)
  {
  }

  /** The kit is the one of the asked tier, and only when that has no price the other one. */
  lemma KitIs(book: Book, term: Option<int>, support: string)
    ensures var own, other := if support == "PS" then "PE" else "SE", if support == "PS" then "SE" else "PE";
            var ownKey, otherKey := FlatKey(own, ClampTerm(term)), FlatKey(other, ClampTerm(term));
            Essentials(book, term, support)
            == if ownKey in book.flats then Kit(book.flats[ownKey], own)
               else if otherKey in book.flats then Kit(book.flats[otherKey], other) else NoKit
  {
  }

  /** What else a quote says: nothing for an empty book or no nodes; else whether the ladder was left above, which cores
      are free, how near the kit was and whether it was taken; and its licences are for the sizing's own nodes and term.
      */
  lemma QuoteSays(book: Book, s: Sizing)
    ensures var q := ClusterLicense(book, s); var bands := BandMap(book, s.edition, s.term, s.support);
            if |book.bands.Keys| == 0 || Sum(s.layout) <= 0
            then q.eur == None && q.required == Nothing && !q.above && q.free == None && q.miss == NoMiss
                 && !q.eligible && q.applied == None
            else && (q.above <==> |bands.Keys| > 0 && AboveLadder(bands, s.cores)) && q.free == CapNote(bands, s.cores)
                 && q.miss == Eligibility(s.layout, s.ram).1
                 && q.applied == (if KitTotal(book, s) == None then None else Some(q.required.KitFor?))
                 && (q.required.KitFor? ==> q.required.nodes == Sum(s.layout) && q.required.term == ClampTerm(s.term))
                 && (q.required.PerNode? ==>
                       && q.required.cores == s.cores && q.required.edition == s.edition
                       && q.required.nodes == Sum(s.layout) && q.required.term == ClampTerm(s.term))
  {
    var bands := BandMap(book, s.edition, s.term, s.support);
    if |bands.Keys| > 0 {
      BandPriceMeaning(bands, s.cores);
    }
    KitTotalIs(book, s);
  }

  /** The larger sizing: no fewer clusters, nodes, cores per node or gigabytes per node. */
  predicate NoSmaller(a: Sizing, b: Sizing) {
    && |a.layout| <= |b.layout| && Sum(a.layout) <= Sum(b.layout) && a.cores <= b.cores
    && (a.ram.Some? && a.ram.value > 0.0 ==> b.ram.Some? && a.ram.value <= b.ram.value)
    && a.term == b.term && a.edition == b.edition && a.support == b.support
  }

  lemma PerNodeGrows(book: Book, a: Sizing, b: Sizing)
    requires NoSmaller(a, b) && Sum(a.layout) > 0 && PerNodeTotal(book, b).Some?
    requires var bands := BandMap(book, a.edition, a.term, a.support); Ascending(bands) && NonNegative(bands)
    ensures PerNodeTotal(book, a).Some? && PerNodeTotal(book, a).value <= PerNodeTotal(book, b).value
  {
    var bands := BandMap(book, a.edition, a.term, a.support);
    NodePriceGrows(bands, a.cores, b.cores, Sum(a.layout), Sum(b.layout));
  }

  lemma NodePriceGrows(bands: Bands, a: real, b: real, m: int, n: int)
    requires Ascending(bands) && NonNegative(bands) && a <= b && 0 <= m <= n && TotalFor(bands, b, n).Some?
    ensures TotalFor(bands, a, m).Some? && TotalFor(bands, a, m).value <= TotalFor(bands, b, n).value
  {
    MoreCoresCostMore(bands, a, b);
    PriceNonNegative(bands, a);
    TimesGrows(BandPrice(bands, a).0, BandPrice(bands, b).0, m, n);
  }

  lemma TimesGrows(p: Option<real>, q: Option<real>, m: int, n: int)
    requires p.Some? && q.Some? && 0.0 <= p.value <= q.value && 0 <= m <= n
    ensures Times(p, m).Some? && Times(p, m).value <= Times(q, n).value
  {
    Scale(p.value, q.value, m as real, n as real);
  }

  lemma PriceNonNegative(bands: Bands, cores: real)
    requires NonNegative(bands) && |bands.Keys| > 0
    ensures BandPrice(bands, cores).0.Some? && BandPrice(bands, cores).0.value >= 0.0
  {
    BandPriceMeaning(bands, cores);
  }

  /** If the kit competes for the larger sizing it competes, at the same price, for the smaller. */
  lemma KitStays(book: Book, a: Sizing, b: Sizing)
    requires NoSmaller(a, b) && Sum(a.layout) > 0 && KitTotal(book, b).Some?
    ensures KitTotal(book, a) == KitTotal(book, b)
  {
    OneCluster(a.layout);
    OneCluster(b.layout);
  }

  lemma CheaperGrows(a: Option<real>, kit: Option<real>, b: Option<real>, other: Option<real>)
    requires b.Some? ==> a.Some? && a.value <= b.value
    requires other.Some? ==> kit == other
    requires b.Some? || other.Some?
    ensures Cheaper(a, kit).Some? && Cheaper(a, kit).value <= Cheaper(b, other).value
  {
  }

  /** On an ascending, non-negative ladder a larger sizing never costs less, and what prices
      it prices the smaller too. */
  lemma CostIsMonotone(book: Book, a: Sizing, b: Sizing)
    requires NoSmaller(a, b) && Sum(a.layout) > 0
    requires var bands := BandMap(book, a.edition, a.term, a.support); Ascending(bands) && NonNegative(bands)
    requires ClusterLicense(book, b).eur.Some?
    ensures ClusterLicense(book, a).eur.Some? && ClusterLicense(book, a).eur.value <= ClusterLicense(book, b).eur.value
  {
    CostIsTheCheaper(book, a);
    CostIsTheCheaper(book, b);
    if PerNodeTotal(book, b).Some? {
      PerNodeGrows(book, a, b);
    }
    if KitTotal(book, b).Some? {
      KitStays(book, a, b);
    }
    CheaperGrows(PerNodeTotal(book, a), KitTotal(book, a), PerNodeTotal(book, b), KitTotal(book, b));
  }

  lemma OneCluster(layout: seq<int>)
    ensures |layout| == 1 ==> Sum(layout) == layout[0]
    ensures |layout| == 0 ==> Sum(layout) == 0
  {
  }

  lemma Scale(p: real, q: real, m: real, n: real)
    requires 0.0 <= p <= q && 0.0 <= m <= n
    ensures p * m <= q * n
  {
    assert p * m <= q * m <= q * n;
  }

  /** Sized through the engine's own layout, adding nodes never lowers the licence cost. */
  lemma MoreNodesCostMore(book: Book, s: Sizing, m: int, n: int, maxPer: int)
    requires maxPer > 0 && 0 < m <= n
    requires var bands := BandMap(book, s.edition, s.term, s.support); Ascending(bands) && NonNegative(bands)
    requires ClusterLicense(book, s.(layout := Layout(n, maxPer))).eur.Some?
    ensures ClusterLicense(book, s.(layout := Layout(m, maxPer))).eur.Some?
    ensures ClusterLicense(book, s.(layout := Layout(m, maxPer))).eur.value
            <= ClusterLicense(book, s.(layout := Layout(n, maxPer))).eur.value
  {
    LayoutMeaning(m, maxPer);
    LayoutMeaning(n, maxPer);
    MoreNodesMoreClusters(m, n, maxPer);
    CostIsMonotone(book, s.(layout := Layout(m, maxPer)), s.(layout := Layout(n, maxPer)));
  }

  lemma CoveringBand(bands: Bands, cores: real, band: int)
    ensures FirstCovering(Ladder(bands.Keys), cores) == Some(band) <==> Covers(bands, cores, band)
  {
    CoveringIn(Ladder(bands.Keys), bands, cores, band);
  }

  lemma CoveringIn(ladder: seq<int>, bands: Bands, cores: real, band: int)
    requires forall i, j :: 0 <= i < j < |ladder| ==> ladder[i] < ladder[j]
    requires forall x :: x in ladder <==> x in bands
    ensures FirstCovering(ladder, cores) == Some(band) <==> Covers(bands, cores, band)
  {
    FirstCoveringMeaning(ladder, cores);
    var first := FirstCovering(ladder, cores);
    if Covers(bands, cores, band) {
      assert band in ladder;
      assert first.Some? && first.value in bands;
    }
  }

  /** The reported band has the price charged, except when band 0 covers the node and is not at the top price. */
  lemma ReportedBandPrice(bands: Bands, cores: real, covering: Option<int>)
    requires |bands.Keys| > 0 && covering == FirstCovering(Ladder(bands.Keys), cores)
    ensures Some(bands[ReportedBand(bands, covering)]) == BandPrice(bands, cores).0
            <==> !(Covers(bands, cores, 0) && bands[0] != bands[Top(bands)])
  {
    CoveringBand(bands, cores, 0);
  }

  /** So the band the customer is told to buy, times the nodes, is the cost under the same condition. */
  lemma ReportedBandIsCharged(book: Book, s: Sizing)
    requires ClusterLicense(book, s).required.PerNode?
    ensures var q := ClusterLicense(book, s); var bands := BandMap(book, s.edition, s.term, s.support);
            && |bands.Keys| > 0
            && q.required.nodes == Sum(s.layout) && q.required.bandCores in bands
            && (q.eur == Times(Some(bands[q.required.bandCores]), q.required.nodes)
                <==> !(Covers(bands, s.cores, 0) && bands[0] != bands[Top(bands)]))
  {
    var bands := BandMap(book, s.edition, s.term, s.support);
    var covering := FirstCovering(Ladder(bands.Keys), s.cores);
    PerNodeQuote(book, s);
    ReportedBandPrice(bands, s.cores, covering);
    TimesCancels(bands[ReportedBand(bands, covering)], BandPrice(bands, s.cores).0, Sum(s.layout));
  }

  /** Bands 0 and 2 at 1 and 5: one node without licensable cores costs 1, and the band of 5 is reported. */
  lemma BandZeroMisreported() returns (book: Book, s: Sizing)
    ensures var q := ClusterLicense(book, s);
            && q.eur == Some(1.0) && q.required == PerNode(0.0, 2, s.edition, 1, 5)
            && BandMap(book, s.edition, s.term, s.support) == map[0 := 1.0, 2 := 5.0]
  {
    var bands: Bands := map[0 := 1.0, 2 := 5.0];
    book, s := Book(map[BandKey("VVF", 5, "SS") := bands], map[]), Sizing([1], 0.0, None, None, "VVF", "SS");
    OnlyBandMap(book, s, bands);
    ChargedAndReported(bands);
    UnkittedQuote(book, s, bands);
  }

  lemma OnlyBandMap(book: Book, s: Sizing, bands: Bands)
    requires book.bands == map[BandKey(s.edition, ClampTerm(s.term), s.support) := bands]
    ensures BandMap(book, s.edition, s.term, s.support) == bands && |book.bands.Keys| > 0
  {
    assert BandKey(s.edition, ClampTerm(s.term), s.support) in book.bands.Keys;
  }

  lemma ChargedAndReported(bands: Bands)
    requires bands == map[0 := 1.0, 2 := 5.0]
    ensures |bands.Keys| > 0 && BandPrice(bands, 0.0).0 == Some(1.0)
    ensures ReportedBand(bands, FirstCovering(Ladder(bands.Keys), 0.0)) == 2
  {
    assert 2 in bands.Keys;
    CoveringBand(bands, 0.0, 0);
    assert Top(bands) == 2;
  }

  /** Without kits a priced node is quoted by itself. */
  lemma UnkittedQuote(book: Book, s: Sizing, bands: Bands)
    requires book.flats == map[] && |book.bands.Keys| > 0 && s.layout == [1] && |bands.Keys| > 0
    requires bands == BandMap(book, s.edition, s.term, s.support) && BandPrice(bands, s.cores).0.Some?
    ensures var q := ClusterLicense(book, s);
            && q.eur == BandPrice(bands, s.cores).0
            && q.required == PerNode(s.cores, ReportedBand(bands, FirstCovering(Ladder(bands.Keys), s.cores)),
                                     s.edition, 1, ClampTerm(s.term))
  {
    assert Sum(s.layout) == 1;
    NoFlatNoKit(book, s);
    LicenseSettles(book, s);
    TimesOne(BandPrice(bands, s.cores).0);
    assert PerNodeTotal(book, s) == BandPrice(bands, s.cores).0;
    NoKitSettles(s, 1, BandPrice(bands, s.cores).0, Reported(bands, s.cores));
  }

  lemma NoKitSettles(s: Sizing, nodes: int, total: Option<real>, reported: Option<int>)
    requires total.Some? && reported.Some?
    ensures var q := Settle(s, nodes, total, reported, NoKit);
            q.eur == total && q.required == PerNode(s.cores, reported.value, s.edition, nodes, ClampTerm(s.term))
  {
  }

  lemma NoFlatNoKit(book: Book, s: Sizing)
    requires book.flats == map[]
    ensures KitOf(book, s) == NoKit
  {
  }

  lemma TimesOne(price: Option<real>)
    ensures Times(price, 1) == price
  {
  }

  lemma PerNodeQuote(book: Book, s: Sizing)
    requires ClusterLicense(book, s).required.PerNode?
    ensures var q := ClusterLicense(book, s); var bands := BandMap(book, s.edition, s.term, s.support);
            && |bands.Keys| > 0 && Sum(s.layout) > 0 && q.eur == PerNodeTotal(book, s)
            && q.required.nodes == Sum(s.layout)
            && q.required.bandCores == ReportedBand(bands, FirstCovering(Ladder(bands.Keys), s.cores))
  {
  }

  lemma TimesCancels(p: real, q: Option<real>, n: int)
    requires n > 0 && q.Some?
    ensures Times(Some(p), n) == Times(q, n) <==> p == q.value
  {
    Cancel(p, q.value, n as real);
  }

  lemma Cancel(p: real, q: real, n: real)
    requires n > 0.0
    ensures p * n == q * n <==> p == q
  {
    if p * n == q * n {
      assert (p - q) * n == 0.0;
    }
  }
}
