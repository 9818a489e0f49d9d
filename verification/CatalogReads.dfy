/** How an import reads any workbook's cells, rows and models. */
module CatalogReads {
  import opened Sequences
  import opened Text
  import opened CatalogModel
  import opened CatalogImport
  import opened CatalogExport
  import opened CatalogRows
  import opened CatalogBlocks
  import opened CatalogGain
  import opened CatalogRelist

  // ── cells ─────────────────────────────────────────────────────────────────

  /** What Python takes for false. */
  predicate Nothing(c: Cell) {
    c in {Empty, Words(""), Whole(0), Dec(0.0), Flag(false)}
  }

  lemma CellAsText(env: Env)
    ensures Str(env, Empty) == "None" && Str(env, Flag(true)) == "True" && Str(env, Flag(false)) == "False"
    ensures forall s :: Str(env, Words(s)) == s
    ensures forall n :: Str(env, Whole(n)) == env.showInt(n)
    ensures forall x :: Str(env, Dec(x)) == env.showReal(x)
  {
  }

  /** A number is itself, towards zero for a whole one; a truth value is 1 or 0; text is parsed; blank is none. */
  lemma CellAsNumber(env: Env, c: Cell)
    ensures c.Empty? || c == Words("") ==> ToInt(env, c).None? && ToReal(env, c).None?
    ensures c.Words? && c.s != "" ==> ToInt(env, c) == env.parseInt(c.s) && ToReal(env, c) == env.parseReal(c.s)
    ensures c.Whole? ==> ToInt(env, c) == Some(c.n) && ToReal(env, c) == Some(c.n as real)
    ensures c.Flag? ==> ToInt(env, c) == Some(if c.b then 1 else 0) && ToReal(env, c) == Some(if c.b then 1.0 else 0.0)
    ensures c.Dec? ==> && ToReal(env, c) == Some(c.x) && ToInt(env, c).Some?
                       && var n := ToInt(env, c).value as real;
                       if c.x >= 0.0 then n <= c.x < n + 1.0 else n - 1.0 < c.x <= n
  {
  }

  function Cut20(s: string): string {
    if |s| > 20 then s[..20] else s
  }

  /** Yes, true or 1, and vendors, regardless of case and of blanks around them; a vendor is cut to 20 characters. */
  lemma WordsAsMeant(env: Env, c: Cell, s: string)
    ensures IsYes(env, c) <==> Lower(Strip(Str(env, c))) in {"yes", "true", "1"}
    ensures CleanVendor(s) == if Lower(Strip(s)) == "" then None else Some(Cut20(Lower(Strip(s))))
  {
  }

  // ── one column of a row ───────────────────────────────────────────────────

  /** The column's whole number: the default where it is missing or nothing. */
  function IntIn(env: Env, r: Row, h: Column, d: int): Option<int> {
    if h !in r || Nothing(r[h]) then Some(d) else ToInt(env, r[h])
  }

  function RealIn(env: Env, r: Row, h: Column): Option<real> {
    if h !in r || Nothing(r[h]) then Some(0.0) else ToReal(env, r[h])
  }

  function RawIn(env: Env, r: Row, h: Column, d: string): string {
    if h in r then Str(env, r[h]) else d
  }

  /** The column's text, if it says anything. */
  function NoteIn(env: Env, r: Row, h: Column): Option<string> {
    if h !in r || Nothing(r[h]) || Strip(Str(env, r[h])) == "" then None else Some(Strip(Str(env, r[h])))
  }

  predicate YesIn(env: Env, r: Row, h: Column) {
    h in r && Lower(Strip(Str(env, r[h]))) in {"yes", "true", "1"}
  }

  function AsResult<T>(x: Option<T>): Result<T> {
    if x.Some? then Ok(x.value) else Err
  }

  lemma ColumnsRead(env: Env, r: Row, h: Column, d: int)
    ensures IntOf(env, r, h, d) == AsResult(IntIn(env, r, h, d))
    ensures RealOf(env, r, h) == AsResult(RealIn(env, r, h))
    ensures TextOf(env, r, h) == Strip(RawIn(env, r, h, ""))
    ensures TextOrNone(env, Get(r, h, Empty)) == NoteIn(env, r, h)
    ensures IsYes(env, Get(r, h, Words(""))) <==> YesIn(env, r, h)
  {
    if h !in r {
      StripTrimmed("");
    }
  }

  /** A cell of a CPU sheet as its column's type: text trimmed, counts and scores whole, clocks and SPECrate not;
      nothing when blank or no number. */
  lemma CpuCellRead(env: Env, h: Column, c: Cell)
    ensures h in {Description, Make, Family, Generation, CpuModel} ==>
              Coerce(env, h, c) == if c in {Empty, Words("")} then Empty else Words(Strip(Str(env, c)))
    ensures h in {Cores, Threads, PCores, ECores, PassMark, PassMarkSingle} ==>
              Coerce(env, h, c) == if ToInt(env, c).Some? then Whole(ToInt(env, c).value) else Empty
    ensures h in {Ghz, BaseGhz, AllCoreGhz, MaxGhz, ECoreBaseGhz, ECoreTurboGhz, SpecRate} ==>
              Coerce(env, h, c) == if ToReal(env, c).Some? then Dec(ToReal(env, c).value) else Empty
  {
  }

  // ── option rows ───────────────────────────────────────────────────────────

  /** A CPU option: quantity 1 and figures 0 where the row is silent; no row with a figure that is none. */
  lemma CpuOptionRead(env: Env, r: Row)
    ensures var q, c, t := IntIn(env, r, Qty, 1), IntIn(env, r, Cores, 0), IntIn(env, r, Threads, 0);
            var g, desc := RealIn(env, r, Ghz), RawIn(env, r, Description, "");
            if q.Some? && c.Some? && t.Some? && g.Some?
            then CpuOptionOf(env, r) == Ok(CpuOption(desc, q.value, c.value, t.value, g.value))
            else CpuOptionOf(env, r) == Err
  {
    ColumnsRead(env, r, Qty, 1);
    ColumnsRead(env, r, Cores, 0);
    ColumnsRead(env, r, Threads, 0);
    ColumnsRead(env, r, Ghz, 0);
  }

  lemma NicOptionRead(env: Env, r: Row)
    ensures var q, p := IntIn(env, r, Qty, 1), IntIn(env, r, Ports, 0);
            var desc, speed := RawIn(env, r, Description, ""), RawIn(env, r, Speed, "");
            if q.Some? && p.Some? then NicOptionOf(env, r) == Ok(NicOption(desc, q.value, p.value, speed))
            else NicOptionOf(env, r) == Err
  {
    ColumnsRead(env, r, Qty, 1);
    ColumnsRead(env, r, Ports, 0);
  }

  lemma DriveOptionRead(env: Env, r: Row)
    ensures var tb := RealIn(env, r, SizeTb);
            DriveOptionOf(env, r) == if tb.Some? then Ok(Drive(Strip(RawIn(env, r, DriveType, "")), tb.value)) else Err
  {
    ColumnsRead(env, r, SizeTb, 0);
    ColumnsRead(env, r, DriveType, 0);
  }

  /** No drives are listed yet, and a count of 0 is none. */
  predicate IsStorageRow(env: Env, r: Row, d: StorageData) {
    && d.kind == Some(Strip(RawIn(env, r, Kind, "nvme_only")))
    && IntIn(env, r, HddCount, 0) == Some(d.hdd.GetOr(0)) && IntIn(env, r, SsdCount, 0) == Some(d.ssd.GetOr(0))
    && IntIn(env, r, NvmeCount, 0) == Some(d.nvme.GetOr(0))
    && IntIn(env, r, DrivesPerNode, 0) == Some(d.perNode.GetOr(0))
    && Some(0) !in {d.hdd, d.ssd, d.nvme, d.perNode}
    && d.hddTb == [] && d.ssdTb == [] && d.nvmeTb == [] && !d.other
  }

  predicate CountsRead(env: Env, r: Row) {
    && IntIn(env, r, HddCount, 0).Some? && IntIn(env, r, SsdCount, 0).Some?
    && IntIn(env, r, NvmeCount, 0).Some? && IntIn(env, r, DrivesPerNode, 0).Some?
  }

  lemma StorageRead(env: Env, r: Row)
    ensures StorageOf(env, r).Ok? <==> CountsRead(env, r)
    ensures StorageOf(env, r).Ok? ==> IsStorageRow(env, r, StorageOf(env, r).value)
  {
    ColumnsRead(env, r, HddCount, 0);
    ColumnsRead(env, r, SsdCount, 0);
    ColumnsRead(env, r, NvmeCount, 0);
    ColumnsRead(env, r, DrivesPerNode, 0);
  }

  function StorageNamed(env: Env, k: string): Row -> bool {
    (r: Row) => k != "" && TextOf(env, r, ModelName) == k
  }

  /** A model's storage is what its last storage row says. */
  lemma {:induction false} StorageWritten(env: Env, rows: seq<Row>, k: string) returns (i: nat)
    requires StorageMap(env, rows).Ok?
    ensures var stor := StorageMap(env, rows).value;
            if NoRow(rows, StorageNamed(env, k)) then k !in stor
            else k in stor && Last(rows, i, StorageNamed(env, k)) && IsStorageRow(env, rows[i], stor[k])
  {
    i := 0;
    if rows != [] {
      var front, last := rows[..|rows|-1], rows[|rows|-1];
      assert rows == front + [last];
      i := StorageWritten(env, front, k);
      OneRowMore(front, last, StorageNamed(env, k), true, i);
      StorageRead(env, last);
      if StorageNamed(env, k)(last) {
        i := |front|;
      }
    }
  }

  /** Option rows are filed one by one, each under its own name, those without a name unread. */
  lemma ItemFiled<T>(rows: seq<Parsed<T>>, r: Parsed<T>, k: string)
    ensures Items<T>([]) == Ok([]) && For<T>([], k) == []
    ensures var before, after := Items(rows), Items(rows + [r]);
            && (after.Ok? <==> before.Ok? && (r.name == "" || r.value.Ok?))
            && (after.Ok? ==> For(after.value, k)
                              == For(before.value, k) + (if r.name == k && k != "" then [r.value.value] else []))
  {
    assert (rows + [r])[..|rows|] == rows;
  }

  // ── what the backup's rows say ────────────────────────────────────────────

  /** A CPU's exported row has every column, each with the catalog's value, blank text as an empty cell. */
  lemma CpuRowExported(desc: string, spec: Spec, h: Column)
    ensures var row := CpuRowOf(desc, spec);
            && (h in row <==> h == Description || IsSpecColumn(h))
            && row[Description] == (if desc == "" then Empty else Words(desc))
            && (IsSpecColumn(h) ==> row[h] == if h in spec && spec[h] != Words("") then spec[h] else Empty)
  {
    CatalogRows.CpuCell(desc, spec, Description);
    if IsSpecColumn(h) {
      CatalogRows.CpuCell(desc, spec, h);
    }
  }

  /** A model's exported CPU option carries the cores, threads and clock of the catalog's CPU. */
  lemma CpuOptionExported(env: Env, c: Catalog, name: string, link: Link)
    requires Plain(name) && CanonicalLink(link) && link.desc in c.cpus && CanonicalSpec(c.cpus[link.desc])
    ensures var o := CpuOptionOf(env, CpuLinkRow(c, name, link)); var spec := c.cpus[link.desc];
            && o.Ok? && o.value.desc == link.desc && o.value.qty == link.qty
            && spec[Cores] == Whole(o.value.cores) && spec[Threads] == Whole(o.value.threads)
            && spec[Ghz] == Dec(o.value.ghz)
  {
    CpuLinkReadsBack(env, c, name, link);
    var spec := c.cpus[link.desc];
    assert CellFits(Cores, spec[Cores]) && CellFits(Threads, spec[Threads]) && CellFits(Ghz, spec[Ghz]);
  }

  /** And an exported NIC option the catalog's ports and speed. */
  lemma NicOptionExported(env: Env, c: Catalog, name: string, link: Link)
    requires Plain(name) && CanonicalLink(link) && link.desc in c.nics && c.nics[link.desc].speed != ""
    ensures NicOptionOf(env, NicLinkRow(c, name, link))
            == Ok(NicOption(link.desc, link.qty, c.nics[link.desc].ports, c.nics[link.desc].speed))
  {
    NicLinkReadsBack(env, c, name, link);
  }

  // ── descriptions ──────────────────────────────────────────────────────────

  predicate AllDigits(s: string) {
    forall i :: 0 <= i < |s| ==> '0' <= s[i] <= '9'
  }

  /** A number, blanks if any, an x of either case, and blanks. */
  predicate IsQuantity(number: string, blanks: string, x: char, more: string) {
    number != "" && AllDigits(number) && Blank(blanks) && x in "xX" && more != "" && Blank(more)
  }

  lemma {:induction false} DigitsGo(number: string, rest: string)
    requires AllDigits(number) && (rest == "" || !('0' <= rest[0] <= '9'))
    ensures DropDigits(number + rest) == rest
  {
    if number == "" {
      assert number + rest == rest;
    } else {
      DigitsGo(number[1..], rest);
      assert (number + rest)[1..] == number[1..] + rest;
    }
  }

  lemma {:induction false} BlanksGo(blanks: string, rest: string)
    requires Blank(blanks) && (rest == "" || !IsSpace(rest[0]))
    ensures LStrip(blanks + rest) == rest
  {
    if blanks == "" {
      assert blanks + rest == rest;
    } else {
      BlanksGo(blanks[1..], rest);
      assert (blanks + rest)[1..] == blanks[1..] + rest;
    }
  }

  /** A quantity in front of a description goes. */
  lemma QuantityGoes(number: string, blanks: string, x: char, more: string, desc: string)
    requires IsQuantity(number, blanks, x, more) && (desc == "" || !IsSpace(desc[0]))
    ensures BaseDesc(number + blanks + [x] + more + desc) == desc
  {
    var after := [x] + more + desc;
    var all := number + blanks + [x] + more + desc;
    assert all == number + (blanks + after);
    DigitsGo(number, blanks + after);
    BlanksGo(blanks, after);
    assert after[1..] == more + desc && after[1] == more[0];
    BlanksGo(more, desc);
  }

  lemma {:induction false} DigitsFront(s: string) returns (number: string)
    ensures s == number + DropDigits(s) && AllDigits(number)
    ensures DropDigits(s) == "" || !('0' <= DropDigits(s)[0] <= '9')
  {
    number := "";
    if s != "" && '0' <= s[0] <= '9' {
      var rest := DigitsFront(s[1..]);
      number := [s[0]] + rest;
      assert DropDigits(s) == DropDigits(s[1..]);
      assert s == [s[0]] + s[1..];
    }
  }

  /** And only a quantity does. */
  lemma OnlyQuantityGoes(desc: string) returns (number: string, blanks: string, x: char, more: string)
    requires BaseDesc(desc) != desc
    ensures IsQuantity(number, blanks, x, more) && desc == number + blanks + [x] + more + BaseDesc(desc)
    ensures BaseDesc(desc) == "" || !IsSpace(BaseDesc(desc)[0])
  {
    number := DigitsFront(desc);
    var rest := DropDigits(desc);
    blanks := LStripCuts(rest);
    var after := LStrip(rest);
    x := after[0];
    more := LStripCuts(after[1..]);
    LStripTrims(after[1..]);
    assert after == [x] + after[1..];
  }

  // ── models ────────────────────────────────────────────────────────────────

  /** The vendor cell, cleaned when it is read and when it is stored. */
  function VendorIn(env: Env, r: Row): Option<string> {
    var text := if Vendor !in r || Nothing(r[Vendor]) then "" else Str(env, r[Vendor]);
    CleanVendor(CleanVendor(text).GetOr(""))
  }

  function CostIn(env: Env, r: Row): Option<real> {
    if Cost !in r || r[Cost] in {Empty, Words("")} then Some(5.0) else ToReal(env, r[Cost])
  }

  /** The model's own columns: as the row says, and where it is silent "Active", "single", no RAM slots, one node, cost
      5, and no text; a validated-only model of no vendor takes the one its chassis or name names. */
  predicate IsModelRow(env: Env, name: string, r: Row, m: Model) {
    && m.status == Strip(RawIn(env, r, Status, "Active")) && m.category == Strip(RawIn(env, r, Category, ""))
    && m.formFactor == NoteIn(env, r, FormFactor) && m.chassis == NoteIn(env, r, Chassis)
    && m.psu == NoteIn(env, r, Psu) && m.notes == NoteIn(env, r, Notes)
    && m.socket == Some(if Socket !in r || Nothing(r[Socket]) then "single" else Strip(Str(env, r[Socket])))
    && m.ramSlots.Some? && m.ramSlots == IntIn(env, r, RamSlots, 0)
    && m.minNodes.Some? && m.minNodes == IntIn(env, r, MinNodes, 1)
    && m.cost.Some? && m.cost == CostIn(env, r)
    && m.validatedOnly == YesIn(env, r, ValidatedOnly) && m.exclude == YesIn(env, r, Exclude)
    && m.vendor == if VendorIn(env, r).None? && m.validatedOnly then env.infer(m.chassis, name) else VendorIn(env, r)
  }

  lemma ModelRowRead(env: Env, name: string, r: Row)
    ensures ModelFields(env, name, r).Ok?
            <==> IntIn(env, r, RamSlots, 0).Some? && IntIn(env, r, MinNodes, 1).Some? && CostIn(env, r).Some?
    ensures ModelFields(env, name, r).Ok? ==> IsModelRow(env, name, r, ModelFields(env, name, r).value)
  {
    ColumnsRead(env, r, RamSlots, 0);
    ColumnsRead(env, r, MinNodes, 1);
    CostRead(env, r);
    if ModelFields(env, name, r).Ok? {
      var ramSlots, minNodes := IntOf(env, r, RamSlots, 0).value, IntOf(env, r, MinNodes, 1).value;
      var cost := CostOf(env, r).value;
      TextsRead(env, name, r, ramSlots, minNodes, cost);
      NotesRead(env, name, r, ramSlots, minNodes, cost);
      VendorRead(env, name, r, ramSlots, minNodes, cost);
    }
  }

  lemma CostRead(env: Env, r: Row)
    ensures CostOf(env, r) == AsResult(CostIn(env, r))
  {
  }

  lemma TextsRead(env: Env, name: string, r: Row, ramSlots: int, minNodes: int, cost: real)
    ensures var m := TextFields(env, name, r, ramSlots, minNodes, cost);
            && m.status == Strip(RawIn(env, r, Status, "Active")) && m.category == Strip(RawIn(env, r, Category, ""))
            && m.socket == Some(if Socket !in r || Nothing(r[Socket]) then "single" else Strip(Str(env, r[Socket])))
            && m.ramSlots == Some(ramSlots) && m.minNodes == Some(minNodes) && m.cost == Some(cost)
  {
    SocketRead(env, r);
    ColumnsRead(env, r, Category, 0);
  }

  lemma SocketRead(env: Env, r: Row)
    ensures SocketOf(env, Get(r, Socket, Empty))
            == if Socket !in r || Nothing(r[Socket]) then "single" else Strip(Str(env, r[Socket]))
  {
    StripTrimmed("single");
  }

  lemma NotesRead(env: Env, name: string, r: Row, ramSlots: int, minNodes: int, cost: real)
    ensures var m := TextFields(env, name, r, ramSlots, minNodes, cost);
            && m.formFactor == NoteIn(env, r, FormFactor) && m.chassis == NoteIn(env, r, Chassis)
            && m.psu == NoteIn(env, r, Psu) && m.notes == NoteIn(env, r, Notes)
            && m.validatedOnly == YesIn(env, r, ValidatedOnly) && m.exclude == YesIn(env, r, Exclude)
  {
    ColumnsRead(env, r, FormFactor, 0);
    ColumnsRead(env, r, Chassis, 0);
    ColumnsRead(env, r, Psu, 0);
    ColumnsRead(env, r, Notes, 0);
    ColumnsRead(env, r, ValidatedOnly, 0);
    ColumnsRead(env, r, Exclude, 0);
  }

  lemma VendorRead(env: Env, name: string, r: Row, ramSlots: int, minNodes: int, cost: real)
    ensures var m := TextFields(env, name, r, ramSlots, minNodes, cost);
            m.vendor == if VendorIn(env, r).None? && m.validatedOnly then env.infer(m.chassis, name)
              else VendorIn(env, r)
  {
    VendorCellRead(env, r);
  }

  lemma VendorCellRead(env: Env, r: Row)
    ensures VendorOf(env, r) == VendorIn(env, r)
  {
  }

  /** The option rows of the name, in order: CPUs and NICs by their description without a quantity. */
  predicate HasOptions(m: Model, options: Options, name: string) {
    var cpus, nics := For(options.cpus, name), For(options.nics, name);
    && |m.cpus| == |cpus| && (forall i :: 0 <= i < |cpus| ==> m.cpus[i] == Link(BaseDesc(cpus[i].desc), cpus[i].qty))
    && |m.nics| == |nics| && (forall i :: 0 <= i < |nics| ==> m.nics[i] == Link(BaseDesc(nics[i].desc), nics[i].qty))
    && m.ram == multiset(For(options.ram, name))
  }

  /** The label of a drive row's kind, whatever its case. */
  function KindLabel(kind: string): Option<string> {
    match Lower(kind)
    case "hdd" => Some("HDD")
    case "ssd" => Some("SSD")
    case "nvme" => Some("NVMe")
    case _ => None
  }

  /** A drive row of its kind and size. */
  ghost predicate Listed(drives: seq<Drive>, d: Drive) {
    exists e :: e in drives && KindLabel(e.kind) == Some(d.kind) && e.tb == d.tb
  }

  /** The storage row's type and counts, "nvme_only" without one, and the name's drive rows; nothing without either. */
  ghost predicate HasStorage(s: Option<Storage>, stor: map<string, StorageData>, drives: seq<Drive>, name: string) {
    if name !in stor && drives == [] then s.None?
    else
      var row := if name in stor then stor[name] else NO_STORAGE;
      && s.Some? && s.value.kind == row.kind.GetOr("nvme_only") && s.value.cloudTiers.None?
      && s.value.hdd == row.hdd && s.value.ssd == row.ssd && s.value.nvme == row.nvme && s.value.perNode == row.perNode
      && forall d: Drive :: d in s.value.drives <==> Listed(drives, d)
  }

  /** Storage rows as read: with a type and before any drive row is added. */
  predicate Fresh(stor: map<string, StorageData>) {
    forall k :: k in stor ==>
      stor[k].kind.Some? && stor[k] == stor[k].(hddTb := [], ssdTb := [], nvmeTb := [], other := false)
  }

  lemma {:induction false} UnderMeans(kind: string, drives: seq<Drive>, x: real)
    ensures x in Under(kind, drives) <==> exists e :: e in drives && Lower(e.kind) == kind && e.tb == x
  {
    if drives != [] {
      var front, last := drives[..|drives|-1], drives[|drives|-1];
      UnderMeans(kind, front, x);
      assert drives == front + [last];
      if e :| e in drives && Lower(e.kind) == kind && e.tb == x {
        assert e in front || e == last;
      }
    }
  }

  lemma LabelledMeans(kind: string, sizes: seq<real>, d: Drive)
    ensures d in Labelled(kind, sizes) <==> d.kind == kind && d.tb in sizes
  {
    if d.kind == kind && d.tb in sizes {
      var i :| 0 <= i < |sizes| && sizes[i] == d.tb;
    }
  }

  lemma {:induction false} SomeKind(drives: seq<Drive>)
    ensures drives == [] <==> !ListsDrives(drives) && !OtherAmong(drives)
  {
    if drives != [] {
      OtherPush(drives);
    }
  }

  /** A drive of a row is listed under its label. */
  lemma DriveListed(drives: seq<Drive>, d: Drive)
    ensures Listed(drives, d)
            <==> || (d.kind == "HDD" && d.tb in Under("hdd", drives))
                 || (d.kind == "SSD" && d.tb in Under("ssd", drives))
                 || (d.kind == "NVMe" && d.tb in Under("nvme", drives))
  {
    UnderMeans("hdd", drives, d.tb);
    UnderMeans("ssd", drives, d.tb);
    UnderMeans("nvme", drives, d.tb);
    if e :| e in drives && KindLabel(e.kind) == Some(d.kind) && e.tb == d.tb {
      assert e in drives;
      assert Lower(e.kind) == (if d.kind == "HDD" then "hdd" else if d.kind == "SSD" then "ssd" else "nvme");
    }
  }

  /** The storage built for a name is that of its storage row and its drive rows. */
  lemma StorageBuilt(stor: map<string, StorageData>, options: Options, name: string)
    requires Fresh(stor)
    ensures var data, drives := StorageFor(stor, options, name), For(options.drives, name);
            && (data == NO_STORAGE <==> name !in stor && drives == [])
            && (data != NO_STORAGE && BuildStorage(data).Ok? ==>
                  HasStorage(Some(BuildStorage(data).value), stor, drives, name))
  {
    var data, drives := StorageFor(stor, options, name), For(options.drives, name);
    DrivesAppend(if name in stor then stor[name] else NO_STORAGE, drives);
    SomeKind(drives);
    if data != NO_STORAGE && BuildStorage(data).Ok? {
      var s := BuildStorage(data).value;
      forall d: Drive
        ensures d in s.drives <==> Listed(drives, d)
      {
        DriveListed(drives, d);
        LabelledMeans("HDD", data.hddTb, d);
        LabelledMeans("SSD", data.ssdTb, d);
        LabelledMeans("NVMe", data.nvmeTb, d);
      }
    }
  }

  predicate AtLeastOne(n: Option<int>) {
    n.Some? && n.value >= 1
  }

  /** The drive counts a storage type needs. */
  predicate CountsGiven(kind: string, row: StorageData) {
    && (kind in {"nvme_only", "ssd_only", "hdd_only"} ==> AtLeastOne(row.perNode))
    && (kind == "hybrid" ==> AtLeastOne(row.hdd) && AtLeastOne(row.ssd))
    && (kind == "hybrid_nvme" ==> AtLeastOne(row.hdd) && AtLeastOne(row.nvme))
  }

  /** No drive row of a kind that is listed comes twice. */
  predicate NoDriveTwice(drives: seq<Drive>) {
    Distinct(Under("hdd", drives)) && Distinct(Under("ssd", drives)) && Distinct(Under("nvme", drives))
  }

  lemma StorageAccepted(stor: map<string, StorageData>, options: Options, name: string)
    requires Fresh(stor)
    ensures var row := if name in stor then stor[name] else NO_STORAGE; var drives := For(options.drives, name);
            BuildStorage(StorageFor(stor, options, name)).Ok?
            <==> CountsGiven(row.kind.GetOr("nvme_only"), row) && NoDriveTwice(drives)
  {
    var row := if name in stor then stor[name] else NO_STORAGE;
    var drives := For(options.drives, name);
    DrivesAppend(row, drives);
    assert [] + Under("hdd", drives) == Under("hdd", drives) && [] + Under("ssd", drives) == Under("ssd", drives)
           && [] + Under("nvme", drives) == Under("nvme", drives);
    CountsAre(row.kind.GetOr("nvme_only"), row);
  }

  lemma CountsAre(kind: string, row: StorageData)
    ensures SlotsOk(kind, row.hdd, row.ssd, row.nvme, row.perNode) <==> CountsGiven(kind, row)
  {
  }

  predicate EachCpuOnce(cpus: seq<CpuOption>) {
    forall i, j :: 0 <= i < j < |cpus| ==>
      BaseDesc(cpus[i].desc) != BaseDesc(cpus[j].desc) || cpus[i].qty != cpus[j].qty
  }

  predicate EachNicOnce(nics: seq<NicOption>) {
    forall i, j :: 0 <= i < j < |nics| ==>
      BaseDesc(nics[i].desc) != BaseDesc(nics[j].desc) || nics[i].qty != nics[j].qty
  }

  lemma OptionsOnce(cpus: seq<CpuOption>, nics: seq<NicOption>)
    ensures Distinct(CpuLinks(cpus)) <==> EachCpuOnce(cpus)
    ensures Distinct(NicLinks(nics)) <==> EachNicOnce(nics)
  {
    forall i, j | 0 <= i < j < |cpus|
      ensures CpuLinks(cpus)[i] != CpuLinks(cpus)[j]
              <==> BaseDesc(cpus[i].desc) != BaseDesc(cpus[j].desc) || cpus[i].qty != cpus[j].qty
    {}
    forall i, j | 0 <= i < j < |nics|
      ensures NicLinks(nics)[i] != NicLinks(nics)[j]
              <==> BaseDesc(nics[i].desc) != BaseDesc(nics[j].desc) || nics[i].qty != nics[j].qty
    {}
  }

  /** A model is refused exactly for a figure that is no number, an option listed twice, a drive listed twice, or a
      drive count its storage type needs. */
  lemma ModelAccepted(env: Env, c: Catalog, name: string, r: Row, options: Options, stor: map<string, StorageData>)
    requires Fresh(stor)
    ensures var cpus, nics, drives := For(options.cpus, name), For(options.nics, name), For(options.drives, name);
            var row := if name in stor then stor[name] else NO_STORAGE;
            BuildModel(env, c, name, r, options, StorageFor(stor, options, name)).Ok?
            <==> && IntIn(env, r, RamSlots, 0).Some? && IntIn(env, r, MinNodes, 1).Some? && CostIn(env, r).Some?
                 && EachCpuOnce(cpus) && EachNicOnce(nics)
                 && (|| (name !in stor && drives == [])
                     || (CountsGiven(row.kind.GetOr("nvme_only"), row) && NoDriveTwice(drives)))
  {
    var cpus, nics := For(options.cpus, name), For(options.nics, name);
    BuildsWhen(env, c, name, r, options, StorageFor(stor, options, name));
    ModelRowRead(env, name, r);
    StorageBuilt(stor, options, name);
    StorageAccepted(stor, options, name);
    OptionsOnce(cpus, nics);
  }

  /** The model is what the row, the option rows and the storage rows of its name say. */
  ghost predicate IsModelOf(env: Env, m: Model, r: Row, options: Options, stor: map<string, StorageData>,
                            name: string) {
    IsModelRow(env, name, r, m) && HasOptions(m, options, name)
    && HasStorage(m.storage, stor, For(options.drives, name), name)
  }

  lemma ModelBuiltAs(env: Env, c: Catalog, name: string, r: Row, options: Options, stor: map<string, StorageData>)
    requires Fresh(stor) && BuildModel(env, c, name, r, options, StorageFor(stor, options, name)).Ok?
    ensures var out := BuildModel(env, c, name, r, options, StorageFor(stor, options, name)).value;
            && out.models.Keys == c.models.Keys + {name} && IsModelOf(env, out.models[name], r, options, stor, name)
            && forall k :: k in c.models && k != name ==> out.models[k] == c.models[k]
  {
    BuildsWhen(env, c, name, r, options, StorageFor(stor, options, name));
    ModelRowRead(env, name, r);
    StorageBuilt(stor, options, name);
  }

  // ── every model of a workbook ─────────────────────────────────────────────

  /** The storage data of a name is as the sheet gave it, or with the drive rows its first model row added. */
  predicate StorKept(now: map<string, StorageData>, stor: map<string, StorageData>, options: Options) {
    && now.Keys == stor.Keys
    && forall k :: k in stor ==> now[k] == stor[k] || now[k] == StorageFor(stor, options, k)
  }

  /** A model that builds is built of the sheet's own storage data. */
  lemma SameStorage(now: map<string, StorageData>, stor: map<string, StorageData>, options: Options, name: string)
    requires StorKept(now, stor, options)
    requires var data := StorageFor(now, options, name); data == NO_STORAGE || BuildStorage(data).Ok?
    ensures StorageFor(now, options, name) == StorageFor(stor, options, name)
  {
    SecondStorage(stor, options, name);
    if name in stor && now[name] != stor[name] {
      assert StorageFor(now, options, name) == StorageFor(stor[name := StorageFor(stor, options, name)], options, name);
    }
  }

  function ModelNamed(env: Env, k: string): Row -> bool {
    (r: Row) => k != "" && TextOf(env, r, Name) == k
  }

  lemma StorStep(env: Env, w: Work, stor: map<string, StorageData>, options: Options, r: Row, overwrite: bool)
    requires StorKept(w.stor, stor, options) && ModelRow(env, w, options, r, overwrite).Ok?
    ensures StorKept(ModelRow(env, w, options, r, overwrite).value.stor, stor, options)
  {
    var name := TextOf(env, r, Name);
    if name != "" && (name !in w.catalog.models || overwrite) {
      BuildsWhen(env, w.catalog, name, r, options, StorageFor(w.stor, options, name));
      SameStorage(w.stor, stor, options, name);
    }
  }

  lemma ModelRowSays(env: Env, w: Work, stor: map<string, StorageData>, options: Options, r: Row, overwrite: bool)
    requires Fresh(stor) && StorKept(w.stor, stor, options) && ModelRow(env, w, options, r, overwrite).Ok?
    ensures var name, was := TextOf(env, r, Name), w.catalog.models;
            var now := ModelRow(env, w, options, r, overwrite).value.catalog.models;
            && (forall k :: k in was && k != name ==> k in now && now[k] == was[k])
            && (forall k :: k in now && k != name ==> k in was)
            && if name == "" || (name in was && !overwrite) then now == was
               else name in now && IsModelOf(env, now[name], r, options, stor, name)
  {
    var name := TextOf(env, r, Name);
    if name != "" && (name !in w.catalog.models || overwrite) {
      BuildsWhen(env, w.catalog, name, r, options, StorageFor(w.stor, options, name));
      SameStorage(w.stor, stor, options, name);
      ModelBuiltAs(env, w.catalog, name, r, options, stor);
    }
  }

  /** A model that was there stays in "add" mode; else it is what the row that counts says, whole and new. */
  lemma {:induction false} ModelWritten(env: Env, w: Work, options: Options, rows: seq<Row>, overwrite: bool, k: string)
    returns (i: nat)
    requires Fresh(w.stor) && ModelRows(env, w, options, rows, overwrite).Ok?
    ensures var out := ModelRows(env, w, options, rows, overwrite).value;
            var was, now := w.catalog.models, out.catalog.models;
            && StorKept(out.stor, w.stor, options)
            && if NoRow(rows, ModelNamed(env, k)) || (k in was && !overwrite)
               then (k in now <==> k in was) && (k in now ==> now[k] == was[k])
               else Counts(rows, i, ModelNamed(env, k), overwrite) && k in now
                    && IsModelOf(env, now[k], rows[i], options, w.stor, k)
  {
    i := 0;
    if rows != [] {
      var front, last := rows[..|rows|-1], rows[|rows|-1];
      assert rows == front + [last];
      i := ModelWritten(env, w, options, front, overwrite, k);
      OneRowMore(front, last, ModelNamed(env, k), overwrite, i);
      StorStep(env, ModelRows(env, w, options, front, overwrite).value, w.stor, options, last, overwrite);
      ModelRowSays(env, ModelRows(env, w, options, front, overwrite).value, w.stor, options, last, overwrite);
      if ModelNamed(env, k)(last) && (overwrite || NoRow(front, ModelNamed(env, k))) {
        i := |front|;
      }
    }
  }

  lemma {:induction false} StorageIsFresh(env: Env, rows: seq<Row>)
    requires StorageMap(env, rows).Ok?
    ensures Fresh(StorageMap(env, rows).value)
  {
    if rows != [] {
      StorageIsFresh(env, rows[..|rows|-1]);
      StorageRead(env, rows[|rows|-1]);
    }
  }

  /** Through the whole import, in either mode: a model no row counts for is as it was; any other is what its row, its
      option rows and its storage rows say. */
  lemma ModelImported(env: Env, c: Catalog, wb: Workbook, overwrite: bool, k: string) returns (i: nat)
    requires Import(env, c, wb, overwrite).Ok?
    ensures var out, rows := Import(env, c, wb, overwrite).value, Rows(wb, Models);
            if NoRow(rows, ModelNamed(env, k)) || (k in c.models && !overwrite)
            then (k in out.models <==> k in c.models) && (k in out.models ==> out.models[k] == c.models[k])
            else && Counts(rows, i, ModelNamed(env, k), overwrite) && k in out.models && OptionsOf(env, wb).Ok?
                 && StorageMap(env, RowsOr(wb, ModelStorage, OldStorage)).Ok?
                 && IsModelOf(env, out.models[k], rows[i], OptionsOf(env, wb).value,
                              StorageMap(env, RowsOr(wb, ModelStorage, OldStorage)).value, k)
  {
    i := 0;
    if Rows(wb, Models) != [] {
      var parts := ImportParts(env, c, wb, overwrite).value;
      var stor := StorageMap(env, RowsOr(wb, ModelStorage, OldStorage)).value;
      StorageIsFresh(env, RowsOr(wb, ModelStorage, OldStorage));
      i := ModelWritten(env, Work(parts, stor), OptionsOf(env, wb).value, Rows(wb, Models), overwrite, k);
    }
  }
}
