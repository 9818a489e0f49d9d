/** The option sheets of the backup, filed back under their models. */
module CatalogBlocks {
  import opened Sequences
  import opened Text
  import opened CatalogModel
  import opened CatalogImport
  import opened CatalogExport
  import opened CatalogRows

  // ── blocks of rows, any kind of option ────────────────────────────────────

  function Block<T>(name: string, values: seq<T>): seq<Parsed<T>> {
    seq(|values|, i requires 0 <= i < |values| => Parsed(name, Ok(values[i])))
  }

  /** One block a model, in order. */
  function Blocks<T>(names: seq<string>, values: map<string, seq<T>>): seq<Parsed<T>>
    requires forall i :: 0 <= i < |names| ==> names[i] in values
  {
    if names == [] then []
    else Blocks(names[..|names|-1], values) + Block(names[|names|-1], values[names[|names|-1]])
  }

  /** The rows are these items, and q's values among them these. */
  ghost predicate Filed<T>(rows: seq<Parsed<T>>, items: seq<Item<T>>, q: string, values: seq<T>) {
    Items(rows) == Ok(items) && For(items, q) == values
  }

  lemma RowFiled<T>(rows: seq<Parsed<T>>, before: seq<Parsed<T>>, items: seq<Item<T>>, name: string, value: T,
                    q: string, values: seq<T>)
    requires name != "" && rows == before + [Parsed(name, Ok(value))] && Filed(before, items, q, values)
    ensures Filed(rows, items + [Item(name, value)], q, values + (if q == name then [value] else []))
  {
    assert rows[..|rows|-1] == before;
    assert (items + [Item(name, value)])[..|items|] == items;
  }

  lemma {:induction false} BlockFiled<T>(before: seq<Parsed<T>>, items: seq<Item<T>>, name: string, values: seq<T>,
                                         q: string, had: seq<T>) returns (all: seq<Item<T>>)
    requires name != "" && Filed(before, items, q, had)
    ensures Filed(before + Block(name, values), all, q, had + (if q == name then values else []))
  {
    if values == [] {
      all := items;
      assert before + Block(name, values) == before;
    } else {
      var n := |values| - 1;
      var less := before + Block(name, values[..n]);
      var most := BlockFiled(before, items, name, values[..n], q, had);
      var rows := before + Block(name, values);
      assert rows == less + [Parsed(name, Ok(values[n]))];
      var found := had + (if q == name then values[..n] else []);
      RowFiled(rows, less, most, name, values[n], q, found);
      all := most + [Item(name, values[n])];
      assert found + (if q == name then [values[n]] else []) == had + (if q == name then values else []);
    }
  }

  /** Distinct models file exactly their own values. */
  lemma {:induction false} BlocksFiled<T>(names: seq<string>, values: map<string, seq<T>>, q: string)
    requires Distinct(names) && forall i :: 0 <= i < |names| ==> names[i] in values && names[i] != ""
    ensures Items(Blocks(names, values)).Ok?
    ensures For(Items(Blocks(names, values)).value, q) == if q in names then values[q] else []
  {
    if names != [] {
      LastIsNew(names);
      var front, last := names[..|names|-1], names[|names|-1];
      BlocksFiled(front, values, q);
      var before := Blocks(front, values);
      var all := BlockFiled(before, Items(before).value, last, values[last], q, For(Items(before).value, q));
      assert Blocks(names, values) == before + Block(last, values[last]);
    }
  }

  // ── each option row read back ─────────────────────────────────────────────

  /** A link to a catalog row, its quantity not zero and its description without a quantity of its own. */
  predicate CanonicalLink(link: Link) {
    link.qty != 0 && link.desc != "" && BaseDesc(link.desc) == link.desc
  }

  predicate LinksKept(links: seq<Link>) {
    Distinct(links) && forall i :: 0 <= i < |links| ==> CanonicalLink(links[i])
  }

  predicate CanonicalLinks(c: Catalog, links: seq<Link>) {
    && LinksKept(links)
    && forall i :: 0 <= i < |links| ==> links[i].desc in c.cpus && CanonicalSpec(c.cpus[links[i].desc])
  }

  predicate CanonicalNicLinks(c: Catalog, links: seq<Link>) {
    LinksKept(links) && forall i :: 0 <= i < |links| ==> links[i].desc in c.nics
  }

  function WholeOf(c: Cell): int {
    if c.Whole? then c.n else 0
  }

  function DecOf(c: Cell): real {
    if c.Dec? then c.x else 0.0
  }

  function CpuOptionFor(c: Catalog, link: Link): CpuOption {
    CpuOption(link.desc, link.qty, WholeOf(SpecCell(c, link.desc, Cores)), WholeOf(SpecCell(c, link.desc, Threads)),
              DecOf(SpecCell(c, link.desc, Ghz)))
  }

  lemma CpuLinkReadsBack(env: Env, c: Catalog, name: string, link: Link)
    requires Plain(name) && CanonicalLink(link) && link.desc in c.cpus && CanonicalSpec(c.cpus[link.desc])
    ensures TextOf(env, CpuLinkRow(c, name, link), ModelName) == name
    ensures CpuOptionOf(env, CpuLinkRow(c, name, link)) == Ok(CpuOptionFor(c, link))
  {
    StripTrims(name);
    var spec := c.cpus[link.desc];
    assert CellFits(Cores, spec[Cores]) && CellFits(Threads, spec[Threads]) && CellFits(Ghz, spec[Ghz]);
  }

  function NicOptionFor(env: Env, c: Catalog, link: Link): NicOption {
    var nic := if link.desc in c.nics then c.nics[link.desc] else Nic(0, "");
    NicOption(link.desc, link.qty, nic.ports, Str(env, Write(nic.speed)))
  }

  lemma NicLinkReadsBack(env: Env, c: Catalog, name: string, link: Link)
    requires Plain(name) && CanonicalLink(link)
    ensures TextOf(env, NicLinkRow(c, name, link), ModelName) == name
    ensures NicOptionOf(env, NicLinkRow(c, name, link)) == Ok(NicOptionFor(env, c, link))
  {
    StripTrims(name);
  }

  lemma RamReadsBack(env: Env, name: string, gb: int)
    requires Plain(name)
    ensures TextOf(env, RamRow(name, gb), ModelName) == name && IntOf(env, RamRow(name, gb), SizeGb, 0) == Ok(gb)
  {
    StripTrims(name);
  }

  /** A drive a model can offer: one of the three kinds, spelt as the importer spells it. */
  predicate KnownKind(d: Drive) {
    d.kind == "HDD" || d.kind == "SSD" || d.kind == "NVMe"
  }

  predicate KnownKinds(drives: seq<Drive>) {
    forall i :: 0 <= i < |drives| ==> KnownKind(drives[i])
  }

  lemma DriveReadsBack(env: Env, name: string, d: Drive)
    requires Plain(name) && KnownKind(d)
    ensures TextOf(env, ModelDriveRow(name, d), ModelName) == name
    ensures DriveOptionOf(env, ModelDriveRow(name, d)) == Ok(d)
  {
    StripTrims(name);
    StripTrims(d.kind);
  }

  // ── the sheets as blocks ──────────────────────────────────────────────────

  function CpuOptionsFor(c: Catalog, links: seq<Link>): seq<CpuOption> {
    seq(|links|, i requires 0 <= i < |links| => CpuOptionFor(c, links[i]))
  }

  function NicOptionsFor(env: Env, c: Catalog, links: seq<Link>): seq<NicOption> {
    seq(|links|, i requires 0 <= i < |links| => NicOptionFor(env, c, links[i]))
  }

  function AllCpuOptions(c: Catalog): map<string, seq<CpuOption>> {
    map name | name in c.models :: CpuOptionsFor(c, c.models[name].cpus)
  }

  function AllNicOptions(env: Env, c: Catalog): map<string, seq<NicOption>> {
    map name | name in c.models :: NicOptionsFor(env, c, c.models[name].nics)
  }

  lemma {:induction false} CpuSheetBlocks(env: Env, c: Catalog, names: seq<string>)
    requires forall i :: 0 <= i < |names| ==>
              names[i] in c.models && Plain(names[i]) && CanonicalLinks(c, c.models[names[i]].cpus)
    ensures CpuParsed(env, ModelCpuSheet(c, names)) == Blocks(names, AllCpuOptions(c))
  {
    if names != [] {
      var n := |names| - 1;
      var links := c.models[names[n]].cpus;
      CpuSheetBlocks(env, c, names[..n]);
      CpuBlockParsed(env, c, names[n], links);
      CpuParsedAdd(env, ModelCpuSheet(c, names[..n]), CpuBlock(c, names[n], links));
    }
  }

  lemma CpuParsedAdd(env: Env, before: seq<Row>, block: seq<Row>)
    ensures CpuParsed(env, before + block) == CpuParsed(env, before) + CpuParsed(env, block)
  {
  }

  lemma CpuBlockParsed(env: Env, c: Catalog, name: string, links: seq<Link>)
    requires Plain(name) && CanonicalLinks(c, links)
    ensures CpuParsed(env, CpuBlock(c, name, links)) == Block(name, CpuOptionsFor(c, links))
  {
    forall i | 0 <= i < |links|
      ensures CpuParsed(env, CpuBlock(c, name, links))[i] == Block(name, CpuOptionsFor(c, links))[i]
    {
      CpuLinkReadsBack(env, c, name, links[i]);
    }
  }

  lemma {:induction false} NicSheetBlocks(env: Env, c: Catalog, names: seq<string>)
    requires forall i :: 0 <= i < |names| ==>
              names[i] in c.models && Plain(names[i]) && CanonicalNicLinks(c, c.models[names[i]].nics)
    ensures NicParsed(env, ModelNicSheet(c, names)) == Blocks(names, AllNicOptions(env, c))
  {
    if names != [] {
      var n := |names| - 1;
      var links := c.models[names[n]].nics;
      NicSheetBlocks(env, c, names[..n]);
      NicBlockParsed(env, c, names[n], links);
      NicParsedAdd(env, ModelNicSheet(c, names[..n]), NicBlock(c, names[n], links));
    }
  }

  lemma NicParsedAdd(env: Env, before: seq<Row>, block: seq<Row>)
    ensures NicParsed(env, before + block) == NicParsed(env, before) + NicParsed(env, block)
  {
  }

  lemma NicBlockParsed(env: Env, c: Catalog, name: string, links: seq<Link>)
    requires Plain(name) && CanonicalNicLinks(c, links)
    ensures NicParsed(env, NicBlock(c, name, links)) == Block(name, NicOptionsFor(env, c, links))
  {
    forall i | 0 <= i < |links|
      ensures NicParsed(env, NicBlock(c, name, links))[i] == Block(name, NicOptionsFor(env, c, links))[i]
    {
      NicLinkReadsBack(env, c, name, links[i]);
    }
  }

  lemma {:induction false} RamSheetBlocks(env: Env, o: Order, names: seq<string>)
    requires forall i :: 0 <= i < |names| ==> names[i] in o.ram && Plain(names[i])
    ensures RamParsed(env, ModelRamSheet(o, names)) == Blocks(names, o.ram)
  {
    if names != [] {
      var n := |names| - 1;
      var sizes := o.ram[names[n]];
      RamSheetBlocks(env, o, names[..n]);
      RamBlockParsed(env, names[n], sizes);
      var before, block := ModelRamSheet(o, names[..n]), RamBlock(names[n], sizes);
      assert RamParsed(env, before + block) == RamParsed(env, before) + RamParsed(env, block);
    }
  }

  lemma RamBlockParsed(env: Env, name: string, sizes: seq<int>)
    requires Plain(name)
    ensures RamParsed(env, RamBlock(name, sizes)) == Block(name, sizes)
  {
    forall i | 0 <= i < |sizes| ensures RamParsed(env, RamBlock(name, sizes))[i] == Block(name, sizes)[i] {
      RamReadsBack(env, name, sizes[i]);
    }
  }

  lemma {:induction false} DriveSheetBlocks(env: Env, o: Order, names: seq<string>)
    requires forall i :: 0 <= i < |names| ==>
              names[i] in o.modelDrives && Plain(names[i]) && KnownKinds(o.modelDrives[names[i]])
    ensures DriveParsed(env, ModelDriveSheet(o, names)) == Blocks(names, o.modelDrives)
  {
    if names != [] {
      var n := |names| - 1;
      var drives := o.modelDrives[names[n]];
      DriveSheetBlocks(env, o, names[..n]);
      DriveBlockParsed(env, names[n], drives);
      var before, block := ModelDriveSheet(o, names[..n]), DriveBlock(names[n], drives);
      assert DriveParsed(env, before + block) == DriveParsed(env, before) + DriveParsed(env, block);
    }
  }

  lemma DriveBlockParsed(env: Env, name: string, drives: seq<Drive>)
    requires Plain(name) && KnownKinds(drives)
    ensures DriveParsed(env, DriveBlock(name, drives)) == Block(name, drives)
  {
    forall i | 0 <= i < |drives| ensures DriveParsed(env, DriveBlock(name, drives))[i] == Block(name, drives)[i] {
      DriveReadsBack(env, name, drives[i]);
    }
  }

  // ── storage rows ──────────────────────────────────────────────────────────

  predicate CountKept(n: Option<int>) {
    n.Some? ==> n.value != 0
  }

  /** A storage block the importer accepts and reproduces. */
  predicate StorageKept(s: Storage) {
    && Plain(s.kind) && CountKept(s.hdd) && CountKept(s.ssd) && CountKept(s.nvme) && CountKept(s.perNode)
    && SlotsOk(s.kind, s.hdd, s.ssd, s.nvme, s.perNode)
    && s.cloudTiers == None && forall d :: d in s.drives ==> KnownKind(d)
  }

  predicate CanonicalStorage(c: Catalog, s: Storage) {
    StorageKept(s) && s.drives <= c.drives
  }

  function DataFor(s: Storage): StorageData {
    NO_STORAGE.(kind := Some(s.kind), hdd := s.hdd, ssd := s.ssd, nvme := s.nvme, perNode := s.perNode)
  }

  lemma CountReadsBack(env: Env, n: Option<int>)
    requires CountKept(n)
    ensures IntOr(env, WriteInt(n), 0).Ok? && NonZero(IntOr(env, WriteInt(n), 0).value) == n
  {
  }

  lemma StorageReadsBack(env: Env, c: Catalog, name: string, s: Storage)
    requires Plain(name) && CanonicalStorage(c, s)
    ensures TextOf(env, StorageRow(name, s), ModelName) == name && StorageOf(env, StorageRow(name, s)) == Ok(DataFor(s))
  {
    StripTrims(name);
    StripTrims(s.kind);
    CountReadsBack(env, s.hdd);
    CountReadsBack(env, s.ssd);
    CountReadsBack(env, s.nvme);
    CountReadsBack(env, s.perNode);
  }

  predicate StorageFits(c: Catalog, name: string)
    requires name in c.models
  {
    && Plain(name)
    && (c.models[name].storage.Some? ==> CanonicalStorage(c, c.models[name].storage.value))
  }

  lemma {:induction false} StorageFiled(env: Env, c: Catalog, names: seq<string>, q: string)
    requires Distinct(names) && forall i :: 0 <= i < |names| ==> names[i] in c.models && StorageFits(c, names[i])
    ensures StorageMap(env, ModelStorageSheet(c, names)).Ok?
    ensures var stor := StorageMap(env, ModelStorageSheet(c, names)).value;
            && (q in stor <==> q in names && c.models[q].storage.Some?)
            && (q in stor ==> stor[q] == DataFor(c.models[q].storage.value))
  {
    if names != [] {
      var front, last := names[..|names|-1], names[|names|-1];
      assert names == front + [last];
      StorageFiled(env, c, front, q);
      LastStorageFiled(env, c, names);
    }
  }

  lemma LastStorageFiled(env: Env, c: Catalog, names: seq<string>)
    requires names != [] && forall i :: 0 <= i < |names| ==> names[i] in c.models && StorageFits(c, names[i])
    requires StorageMap(env, ModelStorageSheet(c, names[..|names|-1])).Ok?
    ensures var last, stor := names[|names|-1], StorageMap(env, ModelStorageSheet(c, names[..|names|-1])).value;
            var s := c.models[last].storage;
            StorageMap(env, ModelStorageSheet(c, names)) == Ok(if s.Some? then stor[last := DataFor(s.value)] else stor)
  {
    var last, before := names[|names|-1], ModelStorageSheet(c, names[..|names|-1]);
    var s := c.models[last].storage;
    assert StorageFits(c, last);
    assert ModelStorageSheet(c, names) == before + (if s.Some? then [StorageRow(last, s.value)] else []);
    if s.Some? {
      StorageReadsBack(env, c, last, s.value);
      StorageMapStep(env, before, StorageRow(last, s.value));
    } else {
      assert before + [] == before;
    }
  }

  lemma StorageMapStep(env: Env, before: seq<Row>, r: Row)
    requires StorageMap(env, before).Ok? && TextOf(env, r, ModelName) != "" && StorageOf(env, r).Ok?
    ensures StorageMap(env, before + [r])
            == Ok(StorageMap(env, before).value[TextOf(env, r, ModelName) := StorageOf(env, r).value])
  {
    assert (before + [r])[..|before|] == before;
  }
}
