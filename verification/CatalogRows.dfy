/** Each exported row read back by the importer. */
module CatalogRows {
  import opened Text
  import opened CatalogModel
  import opened CatalogImport
  import opened CatalogExport

  /** Text that reading back leaves alone: trimmed and not blank. */
  predicate Plain(s: string) {
    s != "" && Trimmed(s)
  }

  predicate PlainOrNone(s: Option<string>) {
    s.Some? ==> Plain(s.value)
  }

  // ── CPUs ──────────────────────────────────────────────────────────────────

  predicate CellFits(h: Column, c: Cell) {
    c.Empty? || (match TypeOf(h)
                 case TextColumn => c.Words? && Plain(c.s)
                 case IntColumn => c.Whole?
                 case RealColumn => c.Dec?)
  }

  /** Typed cells, text plain, the sizing columns not null. */
  predicate CanonicalSpec(spec: Spec) {
    && (forall h :: h in spec <==> IsSpecColumn(h))
    && (forall h :: h in spec ==> CellFits(h, spec[h]))
    && !spec[Cores].Empty? && !spec[Threads].Empty? && !spec[Ghz].Empty?
  }

  lemma CellReadsBack(env: Env, h: Column, c: Cell)
    requires CellFits(h, c)
    ensures Coerce(env, h, WriteCell(c)) == c
  {
    if c.Words? {
      StripTrims(c.s);
    }
  }

  lemma CpuCell(desc: string, spec: Spec, h: Column)
    requires h == Description || IsSpecColumn(h)
    ensures var r := CpuRowOf(desc, spec);
            h in r && r[h] == if h == Description then Write(desc) else if h in spec then WriteCell(spec[h]) else Empty
  {
  }

  lemma CpuRowReadsBack(env: Env, desc: string, spec: Spec)
    requires Plain(desc) && CanonicalSpec(spec)
    ensures var fields := CpuFields(env, CpuRowOf(desc, spec));
            && DescOf(fields) == desc
            && forall h :: h in spec ==> h in fields && fields[h] == spec[h]
  {
    var fields := CpuFields(env, CpuRowOf(desc, spec));
    DescReadsBack(env, desc, spec);
    forall h | h in spec ensures h in fields && fields[h] == spec[h] {
      CpuCell(desc, spec, h);
      CellReadsBack(env, h, spec[h]);
    }
  }

  lemma DescReadsBack(env: Env, desc: string, spec: Spec)
    requires Plain(desc)
    ensures DescOf(CpuFields(env, CpuRowOf(desc, spec))) == desc
  {
    CpuCell(desc, spec, Description);
    CellReadsBack(env, Description, Words(desc));
  }

  /** Null values of the backup leave what the catalog has. */
  function Overlay(was: Spec, spec: Spec): Spec {
    map h | h in was :: if h in spec && spec[h] != Empty then spec[h] else was[h]
  }

  lemma SpecApplied(env: Env, was: Spec, desc: string, spec: Spec)
    requires Plain(desc) && CanonicalSpec(spec) && forall h :: h in was ==> IsSpecColumn(h)
    ensures ApplySpec(was, CpuFields(env, CpuRowOf(desc, spec)), true) == Overlay(was, spec)
  {
    CpuRowReadsBack(env, desc, spec);
  }

  lemma SpecCreated(env: Env, desc: string, spec: Spec)
    requires Plain(desc) && CanonicalSpec(spec)
    ensures NewSpec(CpuFields(env, CpuRowOf(desc, spec))) == spec
  {
    CpuRowReadsBack(env, desc, spec);
    SpecFromFields(CpuFields(env, CpuRowOf(desc, spec)), spec);
  }

  lemma SpecFromFields(fields: map<Column, Cell>, spec: Spec)
    requires CanonicalSpec(spec) && forall h :: h in spec ==> h in fields && fields[h] == spec[h]
    ensures NewSpec(fields) == spec
  {
  }

  // ── the model's own columns ───────────────────────────────────────────────

  function NoOptions(m: Model): Model {
    m.(cpus := [], ram := multiset{}, storage := None, nics := [])
  }

  /** What a model's own columns must be for the backup to give them back. */
  predicate CanonicalFields(env: Env, name: string, m: Model) {
    && Plain(m.status) && Plain(m.category)
    && PlainOrNone(m.formFactor) && PlainOrNone(m.chassis) && PlainOrNone(m.psu) && PlainOrNone(m.notes)
    && m.socket.Some? && Plain(m.socket.value)
    && m.ramSlots.Some? && m.minNodes.Some? && m.minNodes.value != 0 && m.cost.Some?
    && (if m.validatedOnly && Cleaned(m.vendor) == None then env.infer(m.chassis, name) == m.vendor
      else Cleaned(m.vendor) == m.vendor)
  }

  /** The vendor is cleaned twice on its way in, which matters only for a cut that ends in a blank. */
  function Cleaned(vendor: Option<string>): Option<string> {
    CleanVendor(CleanVendor(vendor.GetOr("")).GetOr(""))
  }

  lemma TextReadsBack(env: Env, s: string)
    ensures Strip(Str(env, Write(s))) == s <==> Plain(s)
  {
    StripTrims(s);
    StripTrims("None");
  }

  lemma OptionReadsBack(env: Env, s: Option<string>)
    ensures TextOrNone(env, WriteText(s)) == s <==> PlainOrNone(s)
  {
    if s.Some? {
      StripTrims(s.value);
    }
  }

  lemma YesReadsBack(env: Env, b: bool)
    ensures IsYes(env, YesNo(b)) == b
  {
    var s := if b then "Yes" else "No";
    StripTrims(s);
    assert Lower(s) == if b then "yes" else "no" by {
      LowerShort(s);
    }
  }

  lemma LowerShort(s: string)
    requires s == "Yes" || s == "No"
    ensures Lower(s) == if s == "Yes" then "yes" else "no"
  {
    if s == "Yes" {
      assert s[1..] == "es" && "es"[1..] == "s" && "s"[1..] == "";
      assert Lower("s") == ['s'] + Lower("") == "s";
      assert Lower("es") == ['e'] + Lower("s") == "es";
    } else {
      assert s[1..] == "o" && "o"[1..] == "";
      assert Lower("o") == ['o'] + Lower("") == "o";
    }
    assert Lower(s) == [LowerChar(s[0])] + Lower(s[1..]);
  }

  /** The row holds the model's columns. */
  ghost predicate Carries(r: Row, name: string, m: Model) {
    forall h :: IsModelColumn(h) ==> h in r && r[h] == ModelCell(name, m, h)
  }

  lemma RowCarries(name: string, m: Model)
    ensures Carries(ModelRowOf(name, m), name, m)
  {
  }

  /** What the importer makes of the exported row. */
  function ReadBack(env: Env, name: string, m: Model): Model {
    var chassis := TextOrNone(env, WriteText(m.chassis));
    Model(Strip(Str(env, Write(m.status))), Strip(Str(env, Write(m.category))),
          TextOrNone(env, WriteText(m.formFactor)), chassis, Some(SocketOf(env, WriteText(m.socket))),
          TextOrNone(env, WriteText(m.psu)), Some(m.ramSlots.GetOr(0)),
          Some(if m.minNodes == Some(0) then 1 else m.minNodes.GetOr(1)), Some(m.cost.GetOr(5.0)),
          m.validatedOnly, Vendored(env, name, m.validatedOnly, chassis, Cleaned(m.vendor)), m.exclude,
          TextOrNone(env, WriteText(m.notes)), [], multiset{}, None, [])
  }

  lemma CellAt(r: Row, name: string, m: Model, h: Column, absent: Cell)
    requires Carries(r, name, m) && IsModelColumn(h)
    ensures Get(r, h, absent) == ModelCell(name, m, h)
  {
  }

  lemma TextCells(r: Row, name: string, m: Model)
    requires Carries(r, name, m)
    ensures Get(r, Status, Words("Active")) == Write(m.status) && Get(r, Category, Words("")) == Write(m.category)
    ensures Get(r, FormFactor, Empty) == WriteText(m.formFactor) && Get(r, Chassis, Empty) == WriteText(m.chassis)
  {
    CellAt(r, name, m, Status, Words("Active"));
    CellAt(r, name, m, Category, Words(""));
    CellAt(r, name, m, FormFactor, Empty);
    CellAt(r, name, m, Chassis, Empty);
  }

  lemma MoreCells(r: Row, name: string, m: Model)
    requires Carries(r, name, m)
    ensures Get(r, Socket, Empty) == WriteText(m.socket) && Get(r, Psu, Empty) == WriteText(m.psu)
    ensures Get(r, Notes, Empty) == WriteText(m.notes) && Get(r, Vendor, Empty) == WriteText(m.vendor)
    ensures Get(r, ValidatedOnly, Words("")) == YesNo(m.validatedOnly) && Get(r, Exclude, Words("")) == YesNo(m.exclude)
  {
    CellAt(r, name, m, Socket, Empty);
    CellAt(r, name, m, Psu, Empty);
    CellAt(r, name, m, Notes, Empty);
    CellAt(r, name, m, Vendor, Empty);
    CellAt(r, name, m, ValidatedOnly, Words(""));
    CellAt(r, name, m, Exclude, Words(""));
  }

  lemma NumberFields(env: Env, r: Row, name: string, m: Model)
    requires Carries(r, name, m)
    ensures IntOf(env, r, RamSlots, 0) == Ok(m.ramSlots.GetOr(0))
    ensures IntOf(env, r, MinNodes, 1) == Ok(if m.minNodes == Some(0) then 1 else m.minNodes.GetOr(1))
    ensures CostOf(env, r) == Ok(m.cost.GetOr(5.0))
  {
    CellAt(r, name, m, RamSlots, Whole(0));
    CellAt(r, name, m, MinNodes, Whole(1));
    CellAt(r, name, m, Cost, Empty);
  }

  lemma VendorCell(env: Env, v: Option<string>)
    ensures VendorText(env, WriteText(v)) == CleanVendor(v.GetOr(""))
  {
  }

  lemma ReadBackIs(env: Env, r: Row, name: string, m: Model)
    requires Carries(r, name, m)
    ensures ModelFields(env, name, r) == Ok(ReadBack(env, name, m))
  {
    NumberFields(env, r, name, m);
    TextFieldsAre(env, r, name, m);
  }

  lemma TextFieldsAre(env: Env, r: Row, name: string, m: Model)
    requires Carries(r, name, m)
    ensures var b := ReadBack(env, name, m);
            TextFields(env, name, r, b.ramSlots.value, b.minNodes.value, b.cost.value) == b
  {
    TextCells(r, name, m);
    MoreCells(r, name, m);
    YesReadsBack(env, m.validatedOnly);
    YesReadsBack(env, m.exclude);
    VendorCell(env, m.vendor);
  }

  lemma SocketReadsBack(env: Env, s: Option<string>)
    ensures Some(SocketOf(env, WriteText(s))) == s <==> s.Some? && Plain(s.value)
  {
    if s.Some? {
      StripTrims(s.value);
      StripTrims("single");
    }
  }

  lemma CanonicalReadsBack(env: Env, name: string, m: Model)
    ensures ReadBack(env, name, m) == NoOptions(m) <==> CanonicalFields(env, name, m)
  {
    TextReadsBack(env, m.status);
    TextReadsBack(env, m.category);
    OptionReadsBack(env, m.formFactor);
    OptionReadsBack(env, m.chassis);
    OptionReadsBack(env, m.psu);
    OptionReadsBack(env, m.notes);
    SocketReadsBack(env, m.socket);
  }

  /** A model's own columns come back from its exported row exactly when they are canonical. */
  lemma ModelRowExactly(env: Env, name: string, m: Model)
    ensures ModelFields(env, name, ModelRowOf(name, m)) == Ok(NoOptions(m)) <==> CanonicalFields(env, name, m)
  {
    RowCarries(name, m);
    ReadBackIs(env, ModelRowOf(name, m), name, m);
    CanonicalReadsBack(env, name, m);
  }
}
