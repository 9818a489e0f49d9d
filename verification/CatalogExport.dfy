/** The backup workbook of a catalog. */
module CatalogExport {
  import opened Sequences
  import opened Text
  import opened CatalogModel
  import opened CatalogImport

  /** The orders the export's queries return rows in. */
  datatype Order = Order(cpus: seq<string>, nics: seq<string>, drives: seq<Drive>, models: seq<string>,
                         iops: seq<string>, settings: seq<string>,
                         ram: map<string, seq<int>>, modelDrives: map<string, seq<Drive>>)

  ghost predicate Enumerates<K(!new)>(list: seq<K>, keys: set<K>) {
    Distinct(list) && forall k :: k in list <==> k in keys
  }

  ghost predicate Lists(o: Order, c: Catalog) {
    && Enumerates(o.cpus, c.cpus.Keys) && Enumerates(o.nics, c.nics.Keys) && Enumerates(o.drives, c.drives)
    && Enumerates(o.models, c.models.Keys) && Enumerates(o.iops, c.iops.Keys) && Enumerates(o.settings, c.settings.Keys)
    && forall name :: name in c.models ==> ListsModel(o, name, c.models[name])
  }

  ghost predicate ListsModel(o: Order, name: string, m: Model) {
    && name in o.ram && multiset(o.ram[name]) == m.ram
    && name in o.modelDrives
    && (if m.storage.Some? then Enumerates(o.modelDrives[name], m.storage.value.drives) else o.modelDrives[name] == [])
  }

  // ── cells ─────────────────────────────────────────────────────────────────

  function Write(s: string): Cell {
    if s == "" then Empty else Words(s)
  }

  function WriteText(s: Option<string>): Cell {
    if s.None? then Empty else Write(s.value)
  }

  function WriteInt(n: Option<int>): Cell {
    if n.None? then Empty else Whole(n.value)
  }

  function WriteReal(x: Option<real>): Cell {
    if x.None? then Empty else Dec(x.value)
  }

  function WriteCell(c: Cell): Cell {
    if c == Words("") then Empty else c
  }

  function YesNo(b: bool): Cell {
    Words(if b then "Yes" else "No")
  }

  // ── rows ──────────────────────────────────────────────────────────────────

  function CpuRowOf(desc: string, spec: Spec): Row {
    map h: Column | h == Description || IsSpecColumn(h) ::
      if h == Description then Write(desc) else if h in spec then WriteCell(spec[h]) else Empty
  }

  function NicRowOf(desc: string, nic: Nic): Row {
    map[Description := Write(desc), Ports := Whole(nic.ports), Speed := Write(nic.speed)]
  }

  function DriveRowOf(d: Drive): Row {
    map[Kind := Write(d.kind), SizeTb := Dec(d.tb)]
  }

  predicate IsModelColumn(h: Column) {
    h.Name? || h.Status? || h.Category? || h.FormFactor? || h.Chassis? || h.Socket? || h.Psu? || h.RamSlots?
    || h.MinNodes? || h.Cost? || h.ValidatedOnly? || h.Vendor? || h.Exclude? || h.Notes?
  }

  function ModelCell(name: string, m: Model, h: Column): Cell {
    match h
    case Name => Write(name)
    case Status => Write(m.status)
    case Category => Write(m.category)
    case FormFactor => WriteText(m.formFactor)
    case Chassis => WriteText(m.chassis)
    case Socket => WriteText(m.socket)
    case Psu => WriteText(m.psu)
    case RamSlots => WriteInt(m.ramSlots)
    case MinNodes => WriteInt(m.minNodes)
    case Cost => WriteReal(m.cost)
    case ValidatedOnly => YesNo(m.validatedOnly)
    case Vendor => WriteText(m.vendor)
    case Exclude => YesNo(m.exclude)
    case Notes => WriteText(m.notes)
    case _ => Empty
  }

  function ModelRowOf(name: string, m: Model): Row {
    map h: Column | IsModelColumn(h) :: ModelCell(name, m, h)
  }

  function SpecCell(c: Catalog, desc: string, h: Column): Cell {
    if desc in c.cpus && h in c.cpus[desc] then WriteCell(c.cpus[desc][h]) else Empty
  }

  function CpuLinkRow(c: Catalog, name: string, link: Link): Row {
    map[ModelName := Write(name), Qty := Whole(link.qty), Description := Write(link.desc),
        Cores := SpecCell(c, link.desc, Cores), Threads := SpecCell(c, link.desc, Threads),
        Ghz := SpecCell(c, link.desc, Ghz)]
  }

  function NicLinkRow(c: Catalog, name: string, link: Link): Row {
    var nic := if link.desc in c.nics then c.nics[link.desc] else Nic(0, "");
    map[ModelName := Write(name), Qty := Whole(link.qty), Description := Write(link.desc),
        Ports := Whole(nic.ports), Speed := Write(nic.speed)]
  }

  function RamRow(name: string, gb: int): Row {
    map[ModelName := Write(name), SizeGb := Whole(gb)]
  }

  function StorageRow(name: string, s: Storage): Row {
    map[ModelName := Write(name), Kind := Write(s.kind), HddCount := WriteInt(s.hdd), SsdCount := WriteInt(s.ssd),
        NvmeCount := WriteInt(s.nvme), DrivesPerNode := WriteInt(s.perNode)]
  }

  function ModelDriveRow(name: string, d: Drive): Row {
    map[ModelName := Write(name), DriveType := Write(d.kind), SizeTb := Dec(d.tb)]
  }

  // ── sheets, model by model ────────────────────────────────────────────────

  function CpuSheet(c: Catalog, descs: seq<string>): seq<Row> {
    seq(|descs|, i requires 0 <= i < |descs| =>
      CpuRowOf(descs[i], if descs[i] in c.cpus then c.cpus[descs[i]] else map[]))
  }

  function NicSheet(c: Catalog, descs: seq<string>): seq<Row> {
    seq(|descs|, i requires 0 <= i < |descs| =>
      NicRowOf(descs[i], if descs[i] in c.nics then c.nics[descs[i]] else Nic(0, "")))
  }

  function DriveSheet(drives: seq<Drive>): seq<Row> {
    seq(|drives|, i requires 0 <= i < |drives| => DriveRowOf(drives[i]))
  }

  function ModelSheet(c: Catalog, names: seq<string>): seq<Row>
    requires forall i :: 0 <= i < |names| ==> names[i] in c.models
  {
    seq(|names|, i requires 0 <= i < |names| => ModelRowOf(names[i], c.models[names[i]]))
  }

  function CpuBlock(c: Catalog, name: string, links: seq<Link>): seq<Row> {
    seq(|links|, i requires 0 <= i < |links| => CpuLinkRow(c, name, links[i]))
  }

  function NicBlock(c: Catalog, name: string, links: seq<Link>): seq<Row> {
    seq(|links|, i requires 0 <= i < |links| => NicLinkRow(c, name, links[i]))
  }

  function RamBlock(name: string, sizes: seq<int>): seq<Row> {
    seq(|sizes|, i requires 0 <= i < |sizes| => RamRow(name, sizes[i]))
  }

  function DriveBlock(name: string, drives: seq<Drive>): seq<Row> {
    seq(|drives|, i requires 0 <= i < |drives| => ModelDriveRow(name, drives[i]))
  }

  function ModelCpuSheet(c: Catalog, names: seq<string>): seq<Row>
    requires forall i :: 0 <= i < |names| ==> names[i] in c.models
  {
    if names == [] then []
    else ModelCpuSheet(c, names[..|names|-1]) + CpuBlock(c, names[|names|-1], c.models[names[|names|-1]].cpus)
  }

  function ModelNicSheet(c: Catalog, names: seq<string>): seq<Row>
    requires forall i :: 0 <= i < |names| ==> names[i] in c.models
  {
    if names == [] then []
    else ModelNicSheet(c, names[..|names|-1]) + NicBlock(c, names[|names|-1], c.models[names[|names|-1]].nics)
  }

  function ModelRamSheet(o: Order, names: seq<string>): seq<Row>
    requires forall i :: 0 <= i < |names| ==> names[i] in o.ram
  {
    if names == [] then []
    else ModelRamSheet(o, names[..|names|-1]) + RamBlock(names[|names|-1], o.ram[names[|names|-1]])
  }

  function ModelDriveSheet(o: Order, names: seq<string>): seq<Row>
    requires forall i :: 0 <= i < |names| ==> names[i] in o.modelDrives
  {
    if names == [] then []
    else ModelDriveSheet(o, names[..|names|-1]) + DriveBlock(names[|names|-1], o.modelDrives[names[|names|-1]])
  }

  function ModelStorageSheet(c: Catalog, names: seq<string>): seq<Row>
    requires forall i :: 0 <= i < |names| ==> names[i] in c.models
  {
    if names == [] then []
    else
      var s := c.models[names[|names|-1]].storage;
      ModelStorageSheet(c, names[..|names|-1]) + (if s.Some? then [StorageRow(names[|names|-1], s.value)] else [])
  }

  function IopsSheet(c: Catalog, kinds: seq<string>): seq<Row> {
    seq(|kinds|, i requires 0 <= i < |kinds| =>
      map[DriveType := Write(kinds[i]), IopsValue := Whole(if kinds[i] in c.iops then c.iops[kinds[i]] else 0)])
  }

  function SettingSheet(c: Catalog, keys: seq<string>): seq<Row> {
    seq(|keys|, i requires 0 <= i < |keys| =>
      map[Key := Write(keys[i]), Value := Dec(if keys[i] in c.settings then c.settings[keys[i]] else 0.0)])
  }

  /** The backup: the whole catalog, in the sheets the importer reads. */
  function Export(c: Catalog, o: Order): Workbook
    requires Lists(o, c)
  {
    ListedModels(c, o);
    map[Cpus := CpuSheet(c, o.cpus), Nics := NicSheet(c, o.nics), Drives := DriveSheet(o.drives),
        Models := ModelSheet(c, o.models), ModelCpus := ModelCpuSheet(c, o.models),
        ModelRam := ModelRamSheet(o, o.models), ModelStorage := ModelStorageSheet(c, o.models),
        ModelDrives := ModelDriveSheet(o, o.models), ModelNics := ModelNicSheet(c, o.models),
        DriveIops := IopsSheet(c, o.iops), Settings := SettingSheet(c, o.settings)]
  }

  lemma ListedModels(c: Catalog, o: Order)
    requires Lists(o, c)
    ensures forall i :: 0 <= i < |o.models| ==>
              o.models[i] in c.models && o.models[i] in o.ram && o.models[i] in o.modelDrives
  {
    forall i | 0 <= i < |o.models|
      ensures o.models[i] in c.models && o.models[i] in o.ram && o.models[i] in o.modelDrives
    {
      assert o.models[i] in c.models;
      assert ListsModel(o, o.models[i], c.models[o.models[i]]);
    }
  }
}
