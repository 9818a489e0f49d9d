/** What importing a workbook makes of a catalog. */
module CatalogImport {
  import opened Sequences
  import opened Text
  import opened CatalogModel

  function TextOf(env: Env, r: Row, h: Column): string {
    Strip(Str(env, Get(r, h, Words(""))))
  }

  function IntOf(env: Env, r: Row, h: Column, d: int): Result<int> {
    IntOr(env, Get(r, h, Whole(d)), d)
  }

  function RealOf(env: Env, r: Row, h: Column): Result<real> {
    RealOr0(env, Get(r, h, Whole(0)))
  }

  // ── CPUs, NICs, drives ────────────────────────────────────────────────────

  /** The CPU columns a row carries; a column the sheet lacks stays out. */
  function CpuFields(env: Env, r: Row): map<Column, Cell> {
    map h | h in r && (h == Description || IsSpecColumn(h)) :: Coerce(env, h, r[h])
  }

  /** An empty cell never clears a value; an adding import fills only empty ones. */
  function Chosen(was: Cell, new_: Cell, overwrite: bool): Cell {
    if new_ != Empty && (overwrite || was == Empty) then new_ else was
  }

  function ApplySpec(spec: Spec, fields: map<Column, Cell>, overwrite: bool): Spec {
    map h | h in spec :: if h in fields then Chosen(spec[h], fields[h], overwrite) else spec[h]
  }

  /** A new catalog row: sizing columns as given, everything else null. */
  function BareSpec(cores: Cell, threads: Cell, ghz: Cell): Spec {
    map h: Column | IsSpecColumn(h) :: if h.Cores? then cores else if h.Threads? then threads else if h.Ghz? then ghz
      else Empty
  }

  function OrZero(fields: map<Column, Cell>, h: Column, zero: Cell): Cell {
    if h in fields && Truthy(fields[h]) then fields[h] else zero
  }

  function NewSpec(fields: map<Column, Cell>): Spec {
    ApplySpec(BareSpec(OrZero(fields, Cores, Whole(0)), OrZero(fields, Threads, Whole(0)),
                       OrZero(fields, Ghz, Dec(0.0))),
              fields, true)
  }

  function DescOf(fields: map<Column, Cell>): string {
    if Description in fields && fields[Description].Words? then fields[Description].s else ""
  }

  /** Catalog rows have the CPU columns and no others. */
  ghost predicate SpecsTyped(cpus: map<string, Spec>) {
    forall k :: k in cpus ==> Typed(cpus[k])
  }

  ghost predicate Typed(spec: Spec) {
    forall h :: h in spec ==> IsSpecColumn(h)
  }

  function CpuRow(env: Env, cpus: map<string, Spec>, r: Row, overwrite: bool): map<string, Spec> {
    var fields := CpuFields(env, r);
    var desc := DescOf(fields);
    if desc == "" then cpus
    else if desc in cpus then cpus[desc := ApplySpec(cpus[desc], fields, overwrite)]
    else cpus[desc := NewSpec(fields)]
  }

  function CpuRows(env: Env, cpus: map<string, Spec>, rows: seq<Row>, overwrite: bool): map<string, Spec> {
    if rows == [] then cpus
    else CpuRow(env, CpuRows(env, cpus, rows[..|rows|-1], overwrite), rows[|rows|-1], overwrite)
  }

  function NicRow(env: Env, nics: map<string, Nic>, r: Row, overwrite: bool): Result<map<string, Nic>> {
    var desc := TextOf(env, r, Description);
    if desc == "" then Ok(nics)
    else
      var ports :- IntOf(env, r, Ports, 0);
      Ok(if desc in nics && !overwrite then nics else nics[desc := Nic(ports, TextOf(env, r, Speed))])
  }

  function NicRows(env: Env, nics: map<string, Nic>, rows: seq<Row>, overwrite: bool): Result<map<string, Nic>> {
    if rows == [] then Ok(nics)
    else
      var before :- NicRows(env, nics, rows[..|rows|-1], overwrite);
      NicRow(env, before, rows[|rows|-1], overwrite)
  }

  function DriveRow(env: Env, drives: set<Drive>, r: Row): Result<set<Drive>> {
    var tb :- RealOf(env, r, SizeTb);
    var kind := TextOf(env, r, Kind);
    Ok(if kind == "" || tb <= 0.0 then drives else drives + {Drive(kind, tb)})
  }

  function DriveRows(env: Env, drives: set<Drive>, rows: seq<Row>): Result<set<Drive>> {
    if rows == [] then Ok(drives)
    else
      var before :- DriveRows(env, drives, rows[..|rows|-1]);
      DriveRow(env, before, rows[|rows|-1])
  }

  // ── option rows, by model name ────────────────────────────────────────────

  datatype Item<+T> = Item(name: string, value: T)

  datatype CpuOption = CpuOption(desc: string, qty: int, cores: int, threads: int, ghz: real)
  datatype NicOption = NicOption(desc: string, qty: int, ports: int, speed: string)

  /** What the storage and drive rows say of one model. */
  datatype StorageData = StorageData(kind: Option<string>, hdd: Option<int>, ssd: Option<int>, nvme: Option<int>,
                                     perNode: Option<int>, hddTb: seq<real>, ssdTb: seq<real>, nvmeTb: seq<real>,
                                     other: bool)

  const NO_STORAGE := StorageData(None, None, None, None, None, [], [], [], false)

  /** The values filed under a name, in sheet order. */
  function For<T>(items: seq<Item<T>>, name: string): seq<T> {
    if items == [] then []
    else
      var last := items[|items|-1];
      For(items[..|items|-1], name) + (if last.name == name then [last.value] else [])
  }

  function CpuOptionOf(env: Env, r: Row): Result<CpuOption> {
    var qty :- IntOf(env, r, Qty, 1);
    var cores :- IntOf(env, r, Cores, 0);
    var threads :- IntOf(env, r, Threads, 0);
    var ghz :- RealOf(env, r, Ghz);
    Ok(CpuOption(Str(env, Get(r, Description, Words(""))), qty, cores, threads, ghz))
  }

  function NicOptionOf(env: Env, r: Row): Result<NicOption> {
    var qty :- IntOf(env, r, Qty, 1);
    var ports :- IntOf(env, r, Ports, 0);
    Ok(NicOption(Str(env, Get(r, Description, Words(""))), qty, ports, Str(env, Get(r, Speed, Words("")))))
  }

  function DriveOptionOf(env: Env, r: Row): Result<Drive> {
    var tb :- RealOf(env, r, SizeTb);
    Ok(Drive(TextOf(env, r, DriveType), tb))
  }

  function NonZero(n: int): Option<int> {
    if n == 0 then None else Some(n)
  }

  function StorageOf(env: Env, r: Row): Result<StorageData> {
    var hdd :- IntOf(env, r, HddCount, 0);
    var ssd :- IntOf(env, r, SsdCount, 0);
    var nvme :- IntOf(env, r, NvmeCount, 0);
    var perNode :- IntOf(env, r, DrivesPerNode, 0);
    Ok(NO_STORAGE.(kind := Some(Strip(Str(env, Get(r, Kind, Words("nvme_only"))))), hdd := NonZero(hdd),
                  ssd := NonZero(ssd), nvme := NonZero(nvme), perNode := NonZero(perNode)))
  }

  /** An option row as read: a row without a model name is never parsed further. */
  datatype Parsed<+T> = Parsed(name: string, value: Result<T>)

  function CpuParsed(env: Env, rows: seq<Row>): seq<Parsed<CpuOption>> {
    seq(|rows|, i requires 0 <= i < |rows| => Parsed(TextOf(env, rows[i], ModelName), CpuOptionOf(env, rows[i])))
  }

  function RamParsed(env: Env, rows: seq<Row>): seq<Parsed<int>> {
    seq(|rows|, i requires 0 <= i < |rows| => Parsed(TextOf(env, rows[i], ModelName), IntOf(env, rows[i], SizeGb, 0)))
  }

  function DriveParsed(env: Env, rows: seq<Row>): seq<Parsed<Drive>> {
    seq(|rows|, i requires 0 <= i < |rows| => Parsed(TextOf(env, rows[i], ModelName), DriveOptionOf(env, rows[i])))
  }

  function NicParsed(env: Env, rows: seq<Row>): seq<Parsed<NicOption>> {
    seq(|rows|, i requires 0 <= i < |rows| => Parsed(TextOf(env, rows[i], ModelName), NicOptionOf(env, rows[i])))
  }

  function Items<T>(rows: seq<Parsed<T>>): Result<seq<Item<T>>> {
    if rows == [] then Ok([])
    else
      var items :- Items(rows[..|rows|-1]);
      var r := rows[|rows|-1];
      if r.name == "" then Ok(items)
      else
        var value :- r.value;
        Ok(items + [Item(r.name, value)])
  }

  /** The last storage row of a model wins. */
  function StorageMap(env: Env, rows: seq<Row>): Result<map<string, StorageData>> {
    if rows == [] then Ok(map[])
    else
      var stor :- StorageMap(env, rows[..|rows|-1]);
      var r := rows[|rows|-1];
      if TextOf(env, r, ModelName) == "" then Ok(stor)
      else
        var data :- StorageOf(env, r);
        Ok(stor[TextOf(env, r, ModelName) := data])
  }

  // ── one model ─────────────────────────────────────────────────────────────

  /** A drive size goes under its lower-case kind; other kinds leave only a trace. */
  function AddDrive(data: StorageData, d: Drive): StorageData {
    match Lower(d.kind)
    case "hdd" => data.(hddTb := data.hddTb + [d.tb])
    case "ssd" => data.(ssdTb := data.ssdTb + [d.tb])
    case "nvme" => data.(nvmeTb := data.nvmeTb + [d.tb])
    case _ => data.(other := true)
  }

  function AddDrives(data: StorageData, drives: seq<Drive>): StorageData {
    if drives == [] then data else AddDrive(AddDrives(data, drives[..|drives|-1]), drives[|drives|-1])
  }

  function Labelled(kind: string, sizes: seq<real>): set<Drive> {
    set i | 0 <= i < |sizes| :: Drive(kind, sizes[i])
  }

  function LabelledDrives(data: StorageData): set<Drive> {
    Labelled("HDD", data.hddTb) + Labelled("SSD", data.ssdTb) + Labelled("NVMe", data.nvmeTb)
  }

  /** Refused without the drive counts its type needs, or with one drive listed twice. */
  function BuildStorage(data: StorageData): Result<Storage> {
    var kind := data.kind.GetOr("nvme_only");
    if !SlotsOk(kind, data.hdd, data.ssd, data.nvme, data.perNode) then Err
    else if !Distinct(data.hddTb) || !Distinct(data.ssdTb) || !Distinct(data.nvmeTb) then Err
    else Ok(Storage(kind, data.hdd, data.ssd, data.nvme, data.perNode, None, LabelledDrives(data)))
  }

  /** Links to CPUs, which are looked up by description and created when missing. */
  function WithCpus(cpus: map<string, Spec>, options: seq<CpuOption>): map<string, Spec> {
    if options == [] then cpus
    else WithCpu(WithCpus(cpus, options[..|options|-1]), options[|options|-1])
  }

  function WithCpu(cpus: map<string, Spec>, o: CpuOption): map<string, Spec> {
    if BaseDesc(o.desc) in cpus then cpus
      else cpus[BaseDesc(o.desc) := BareSpec(Whole(o.cores), Whole(o.threads), Dec(o.ghz))]
  }

  function WithNics(nics: map<string, Nic>, options: seq<NicOption>): map<string, Nic> {
    if options == [] then nics
    else WithNic(WithNics(nics, options[..|options|-1]), options[|options|-1])
  }

  function WithNic(nics: map<string, Nic>, o: NicOption): map<string, Nic> {
    if BaseDesc(o.desc) in nics then nics else nics[BaseDesc(o.desc) := Nic(o.ports, o.speed)]
  }

  function CpuLinks(options: seq<CpuOption>): seq<Link> {
    seq(|options|, i requires 0 <= i < |options| => Link(BaseDesc(options[i].desc), options[i].qty))
  }

  function NicLinks(options: seq<NicOption>): seq<Link> {
    seq(|options|, i requires 0 <= i < |options| => Link(BaseDesc(options[i].desc), options[i].qty))
  }

  function VendorText(env: Env, c: Cell): Option<string> {
    CleanVendor(if Truthy(c) then Str(env, c) else "")
  }

  function VendorOf(env: Env, r: Row): Option<string> {
    CleanVendor(VendorText(env, Get(r, Vendor, Empty)).GetOr(""))
  }

  function CostOf(env: Env, r: Row): Result<real> {
    var c := Get(r, Cost, Empty);
    if c == Empty || c == Words("") then Ok(5.0) else if ToReal(env, c).Some? then Ok(ToReal(env, c).value) else Err
  }

  function SocketOf(env: Env, c: Cell): string {
    Strip(if Truthy(c) then Str(env, c) else "single")
  }

  /** The model's own columns, its option lists still empty. */
  function TextFields(env: Env, name: string, r: Row, ramSlots: int, minNodes: int, cost: real): Model {
    var chassis := TextOrNone(env, Get(r, Chassis, Empty));
    var validatedOnly := IsYes(env, Get(r, ValidatedOnly, Words("")));
    Model(Strip(Str(env, Get(r, Status, Words("Active")))), TextOf(env, r, Category),
          TextOrNone(env, Get(r, FormFactor, Empty)), chassis, Some(SocketOf(env, Get(r, Socket, Empty))),
          TextOrNone(env, Get(r, Psu, Empty)), Some(ramSlots), Some(minNodes), Some(cost), validatedOnly,
          Vendored(env, name, validatedOnly, chassis, VendorOf(env, r)),
          IsYes(env, Get(r, Exclude, Words(""))), TextOrNone(env, Get(r, Notes, Empty)), [], multiset{}, None, [])
  }

  /** A missing vendor is inferred, for validated-only models alone. */
  function Vendored(env: Env, name: string, validatedOnly: bool, chassis: Option<string>,
                    vendor: Option<string>): Option<string> {
    if validatedOnly && vendor.None? then env.infer(chassis, name) else vendor
  }

  function ModelFields(env: Env, name: string, r: Row): Result<Model> {
    var ramSlots :- IntOf(env, r, RamSlots, 0);
    var minNodes :- IntOf(env, r, MinNodes, 1);
    var cost :- CostOf(env, r);
    Ok(TextFields(env, name, r, ramSlots, minNodes, cost))
  }

  /** The option lists of every model in the workbook. */
  datatype Options = Options(cpus: seq<Item<CpuOption>>, ram: seq<Item<int>>, drives: seq<Item<Drive>>,
                             nics: seq<Item<NicOption>>)

  /** The storage data is shared: a model listed again finds the drives its first row added. */
  datatype Work = Work(catalog: Catalog, stor: map<string, StorageData>)

  function StorageFor(stor: map<string, StorageData>, options: Options, name: string): StorageData {
    AddDrives(if name in stor then stor[name] else NO_STORAGE, For(options.drives, name))
  }

  function BuildModel(env: Env, c: Catalog, name: string, r: Row, options: Options,
                      data: StorageData): Result<Catalog> {
    var fields :- ModelFields(env, name, r);
    var cpus, nics := For(options.cpus, name), For(options.nics, name);
    if !Distinct(CpuLinks(cpus)) || !Distinct(NicLinks(nics)) then Err
    else
      var storage :- if data == NO_STORAGE then Ok(None) else AsSome(BuildStorage(data));
      Ok(Built(c, name, fields, cpus, For(options.ram, name), nics, storage))
  }

  function Built(c: Catalog, name: string, fields: Model, cpus: seq<CpuOption>, sizes: seq<int>, nics: seq<NicOption>,
                 storage: Option<Storage>): Catalog {
    c.(cpus := WithCpus(c.cpus, cpus), nics := WithNics(c.nics, nics),
       drives := if storage.Some? then c.drives + storage.value.drives else c.drives,
       models := c.models[name := fields.(cpus := CpuLinks(cpus), ram := multiset(sizes), storage := storage,
                                          nics := NicLinks(nics))])
  }

  /** What can refuse a model: its own columns, an option listed twice, or its storage. */
  lemma BuildsWhen(env: Env, c: Catalog, name: string, r: Row, options: Options, data: StorageData)
    ensures var fields, cpus, nics := ModelFields(env, name, r), For(options.cpus, name), For(options.nics, name);
            var built := BuildModel(env, c, name, r, options, data);
            && (built.Ok? <==> fields.Ok? && Distinct(CpuLinks(cpus)) && Distinct(NicLinks(nics))
                               && (data == NO_STORAGE || BuildStorage(data).Ok?))
            && (built.Ok? ==> built.value == Built(c, name, fields.value, cpus, For(options.ram, name), nics,
                                                   if data == NO_STORAGE then None else Some(BuildStorage(data).value)))
  {
  }

  function AsSome<T>(r: Result<T>): Result<Option<T>> {
    if r.Ok? then Ok(Some(r.value)) else Err
  }

  function ModelRow(env: Env, w: Work, options: Options, r: Row, overwrite: bool): Result<Work> {
    var name := TextOf(env, r, Name);
    if name == "" || (name in w.catalog.models && !overwrite) then Ok(w)
    else
      var data := StorageFor(w.stor, options, name);
      var catalog :- BuildModel(env, w.catalog, name, r, options, data);
      Ok(Work(catalog, if name in w.stor then w.stor[name := data] else w.stor))
  }

  function ModelRows(env: Env, w: Work, options: Options, rows: seq<Row>, overwrite: bool): Result<Work> {
    if rows == [] then Ok(w)
    else
      var before :- ModelRows(env, w, options, rows[..|rows|-1], overwrite);
      ModelRow(env, before, options, rows[|rows|-1], overwrite)
  }

  // ── key/value sheets ──────────────────────────────────────────────────────

  function IopsRow(env: Env, iops: map<string, int>, r: Row, overwrite: bool): map<string, int> {
    var key, value := TextOf(env, r, DriveType), ToInt(env, Get(r, IopsValue, Empty));
    if key == "" || value.None? || (key in iops && !overwrite) then iops else iops[key := value.value]
  }

  function IopsRows(env: Env, iops: map<string, int>, rows: seq<Row>, overwrite: bool): map<string, int> {
    if rows == [] then iops
    else IopsRow(env, IopsRows(env, iops, rows[..|rows|-1], overwrite), rows[|rows|-1], overwrite)
  }

  function SettingRow(env: Env, settings: map<string, real>, r: Row, overwrite: bool): map<string, real> {
    var key, value := TextOf(env, r, Key), ToReal(env, Get(r, Value, Empty));
    if key == "" || value.None? || (key in settings && !overwrite) then settings else settings[key := value.value]
  }

  function SettingRows(env: Env, settings: map<string, real>, rows: seq<Row>, overwrite: bool): map<string, real> {
    if rows == [] then settings
    else SettingRow(env, SettingRows(env, settings, rows[..|rows|-1], overwrite), rows[|rows|-1], overwrite)
  }

  // ── the whole workbook ────────────────────────────────────────────────────

  function Rows(wb: Workbook, s: Sheet): seq<Row> {
    if s in wb then wb[s] else []
  }

  /** The first of two sheets that has rows. */
  function RowsOr(wb: Workbook, s: Sheet, older: Sheet): seq<Row> {
    if Rows(wb, s) != [] then Rows(wb, s) else Rows(wb, older)
  }

  predicate Recognised(wb: Workbook) {
    Rows(wb, Cpus) != [] || Rows(wb, Nics) != [] || Rows(wb, Drives) != [] || Rows(wb, Models) != []
    || Rows(wb, DriveIops) != [] || Rows(wb, Settings) != []
  }

  function OptionsOf(env: Env, wb: Workbook): Result<Options> {
    var cpus :- Items(CpuParsed(env, RowsOr(wb, ModelCpus, OldCpus)));
    var ram :- Items(RamParsed(env, RowsOr(wb, ModelRam, OldRam)));
    var drives :- Items(DriveParsed(env, RowsOr(wb, ModelDrives, OldDrives)));
    var nics :- Items(NicParsed(env, RowsOr(wb, ModelNics, OldNics)));
    Ok(Options(cpus, ram, drives, nics))
  }

  /** The catalog once its models are in; the option sheets are read only beside model rows. */
  function ImportModels(env: Env, c: Catalog, wb: Workbook, overwrite: bool): Result<Catalog> {
    if Rows(wb, Models) == [] then Ok(c)
    else
      var options :- OptionsOf(env, wb);
      var stor :- StorageMap(env, RowsOr(wb, ModelStorage, OldStorage));
      var w :- ModelRows(env, Work(c, stor), options, Rows(wb, Models), overwrite);
      Ok(w.catalog)
  }

  function ImportParts(env: Env, c: Catalog, wb: Workbook, overwrite: bool): Result<Catalog> {
    var nics :- NicRows(env, c.nics, Rows(wb, Nics), overwrite);
    var drives :- DriveRows(env, c.drives, Rows(wb, Drives));
    Ok(c.(cpus := CpuRows(env, c.cpus, Rows(wb, Cpus), overwrite), nics := nics, drives := drives))
  }

  function ImportConfig(env: Env, c: Catalog, wb: Workbook, overwrite: bool): Catalog {
    c.(iops := IopsRows(env, c.iops, Rows(wb, DriveIops), overwrite),
       settings := SettingRows(env, c.settings, Rows(wb, Settings), overwrite))
  }

  /** A workbook restored (overwrite) or added; on Err nothing changes. */
  function Import(env: Env, c: Catalog, wb: Workbook, overwrite: bool): Result<Catalog> {
    if !Recognised(wb) then Err
    else
      var parts :- ImportParts(env, c, wb, overwrite);
      var models :- ImportModels(env, parts, wb, overwrite);
      Ok(ImportConfig(env, models, wb, overwrite))
  }

  function After(env: Env, c: Catalog, wb: Workbook, overwrite: bool): Catalog {
    if Import(env, c, wb, overwrite).Ok? then Import(env, c, wb, overwrite).value else c
  }
}
