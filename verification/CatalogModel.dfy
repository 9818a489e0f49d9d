/** The hardware catalog, the workbook that carries it, and how cells are read. */
module CatalogModel {
  import opened Text

  /** A spreadsheet cell; blank text is written as an empty cell. */
  datatype Cell = Empty | Words(s: string) | Whole(n: int) | Dec(x: real) | Flag(b: bool)

  datatype Column =
    | Description | Cores | Threads | Ghz | Make | Family | Generation | CpuModel | PCores | ECores
    | BaseGhz | AllCoreGhz | MaxGhz | ECoreBaseGhz | ECoreTurboGhz | SpecRate | PassMark | PassMarkSingle
    | Name | Status | Category | FormFactor | Chassis | Socket | Psu | RamSlots | MinNodes | Cost
    | ValidatedOnly | Vendor | Exclude | Notes
    | ModelName | Qty | Ports | Speed | Kind | SizeTb | SizeGb | DriveType
    | HddCount | SsdCount | NvmeCount | DrivesPerNode | IopsValue | Key | Value

  datatype Sheet = Cpus | Nics | Drives | Models | ModelCpus | ModelRam | ModelStorage | ModelDrives | ModelNics
    | OldCpus | OldRam | OldStorage | OldDrives | OldNics | DriveIops | Settings

  type Row = map<Column, Cell>
  type Workbook = map<Sheet, seq<Row>>

  /** Err stands for any refusal: the importer then rolls everything back. */
  datatype Result<+T> = Ok(value: T) | Err {
    predicate IsFailure() {
      Err?
    }

    function PropagateFailure<U>(): Result<U>
      requires Err?
    {
      Err
    }

    function Extract(): T
      requires Ok?
    {
      value
    }
  }

  // ── the catalog ───────────────────────────────────────────────────────────

  /** The attributes of a CPU beside its description; Empty is null. */
  type Spec = map<Column, Cell>

  datatype Nic = Nic(ports: int, speed: string)
  datatype Drive = Drive(kind: string, tb: real)

  /** A model's CPU or NIC option, naming the catalog row by its description. */
  datatype Link = Link(desc: string, qty: int)

  datatype Storage = Storage(kind: string, hdd: Option<int>, ssd: Option<int>, nvme: Option<int>, perNode: Option<int>,
                             cloudTiers: Option<string>, drives: set<Drive>)

  datatype Model = Model(status: string, category: string, formFactor: Option<string>, chassis: Option<string>,
                         socket: Option<string>, psu: Option<string>, ramSlots: Option<int>, minNodes: Option<int>,
                         cost: Option<real>, validatedOnly: bool, vendor: Option<string>, exclude: bool,
                         notes: Option<string>,
                         cpus: seq<Link>, ram: multiset<int>, storage: Option<Storage>, nics: seq<Link>)

  datatype Catalog = Catalog(cpus: map<string, Spec>, nics: map<string, Nic>, drives: set<Drive>,
                             models: map<string, Model>, iops: map<string, int>, settings: map<string, real>)

  const EMPTY_CATALOG := Catalog(map[], map[], {}, map[], map[], map[])

  // ── reading cells ─────────────────────────────────────────────────────────

  /** Number syntax, number printing and the brand list live outside the importer. */
  datatype Env = Env(parseInt: string -> Option<int>, parseReal: string -> Option<real>,
                     showInt: int -> string, showReal: real -> string,
                     infer: (Option<string>, string) -> Option<string>)

  function Get(r: Row, h: Column, absent: Cell): Cell {
    if h in r then r[h] else absent
  }

  predicate Truthy(c: Cell) {
    match c
    case Empty => false
    case Words(s) => s != ""
    case Whole(n) => n != 0
    case Dec(x) => x != 0.0
    case Flag(b) => b
  }

  /** str(value): an empty cell reads "None". */
  function Str(env: Env, c: Cell): string {
    match c
    case Empty => "None"
    case Words(s) => s
    case Whole(n) => env.showInt(n)
    case Dec(x) => env.showReal(x)
    case Flag(b) => if b then "True" else "False"
  }

  function Trunc(x: real): int {
    if x >= 0.0 then x.Floor else -((-x).Floor)
  }

  function ToInt(env: Env, c: Cell): Option<int> {
    match c
    case Empty => None
    case Words(s) => if s == "" then None else env.parseInt(s)
    case Whole(n) => Some(n)
    case Dec(x) => Some(Trunc(x))
    case Flag(b) => Some(if b then 1 else 0)
  }

  function ToReal(env: Env, c: Cell): Option<real> {
    match c
    case Empty => None
    case Words(s) => if s == "" then None else env.parseReal(s)
    case Whole(n) => Some(n as real)
    case Dec(x) => Some(x)
    case Flag(b) => Some(if b then 1.0 else 0.0)
  }

  /** int(value or d): junk raises. */
  function IntOr(env: Env, c: Cell, d: int): Result<int> {
    if !Truthy(c) then Ok(d) else if ToInt(env, c).Some? then Ok(ToInt(env, c).value) else Err
  }

  /** float(value or 0): junk raises. */
  function RealOr0(env: Env, c: Cell): Result<real> {
    if !Truthy(c) then Ok(0.0) else if ToReal(env, c).Some? then Ok(ToReal(env, c).value) else Err
  }

  /** A cell as trimmed text; blank counts as absent. */
  function TextOrNone(env: Env, c: Cell): Option<string> {
    var s := if Truthy(c) then Strip(Str(env, c)) else "";
    if s == "" then None else Some(s)
  }

  predicate IsYes(env: Env, c: Cell) {
    var word := Lower(Strip(Str(env, c)));
    word == "yes" || word == "true" || word == "1"
  }

  /** Lower-case, trimmed, at most 20 characters, none when blank. */
  function CleanVendor(s: string): Option<string> {
    var v := Lower(Strip(s));
    var cut := if |v| > 20 then v[..20] else v;
    if cut == "" then None else Some(cut)
  }

  function DropDigits(s: string): string {
    if s != "" && '0' <= s[0] <= '9' then DropDigits(s[1..]) else s
  }

  /** A description without its leading "2 x ". */
  function BaseDesc(desc: string): string {
    var rest := DropDigits(desc);
    var after := LStrip(rest);
    if |rest| < |desc| && after != "" && after[0] in "xX" && |after| > 1 && IsSpace(after[1]) then LStrip(after[1..])
      else desc
  }

  // ── CPU columns ───────────────────────────────────────────────────────────

  datatype Type = TextColumn | IntColumn | RealColumn

  const SIZING_COLUMNS := [Description, Cores, Threads, Ghz]
  const NAME_COLUMNS := [Make, Family, Generation, CpuModel, PCores, ECores]
  const CLOCK_COLUMNS := [BaseGhz, AllCoreGhz, MaxGhz, ECoreBaseGhz, ECoreTurboGhz]
  const SCORE_COLUMNS := [SpecRate, PassMark, PassMarkSingle]

  /** The columns of the CPU sheet, in order. */
  function CpuColumns(): seq<Column> {
    SIZING_COLUMNS + NAME_COLUMNS + CLOCK_COLUMNS + SCORE_COLUMNS
  }

  predicate IsSpecColumn(h: Column) {
    h.Cores? || h.Threads? || h.Ghz? || IsName(h) || IsClock(h) || IsScore(h)
  }

  predicate IsName(h: Column) {
    h.Make? || h.Family? || h.Generation? || h.CpuModel? || h.PCores? || h.ECores?
  }

  predicate IsClock(h: Column) {
    h.BaseGhz? || h.AllCoreGhz? || h.MaxGhz? || h.ECoreBaseGhz? || h.ECoreTurboGhz?
  }

  predicate IsScore(h: Column) {
    h.SpecRate? || h.PassMark? || h.PassMarkSingle?
  }

  lemma SizingAndClocks(h: Column)
    ensures h in SIZING_COLUMNS <==> h == Description || h.Cores? || h.Threads? || h.Ghz?
    ensures h in CLOCK_COLUMNS <==> IsClock(h)
  {
  }

  lemma NamesAndScores(h: Column)
    ensures h in NAME_COLUMNS <==> IsName(h)
    ensures h in SCORE_COLUMNS <==> IsScore(h)
  {
  }

  lemma CpuColumnsAre(h: Column)
    ensures h in CpuColumns() <==> h == Description || IsSpecColumn(h)
  {
    SizingAndClocks(h);
    NamesAndScores(h);
  }

  function TypeOf(h: Column): Type {
    match h
    case Description | Make | Family | Generation | CpuModel => TextColumn
    case Cores | Threads | PCores | ECores | PassMark | PassMarkSingle => IntColumn
    case _ => RealColumn
  }

  /** One CPU cell as its column's type; Empty when blank or not a number. */
  function Coerce(env: Env, h: Column, c: Cell): Cell {
    match TypeOf(h)
    case TextColumn => if c == Empty || c == Words("") then Empty else Words(Strip(Str(env, c)))
    case IntColumn => (var n := ToInt(env, c); if n.Some? then Whole(n.value) else Empty)
    case RealColumn => (var x := ToReal(env, c); if x.Some? then Dec(x.value) else Empty)
  }

  // ── storage layouts ───────────────────────────────────────────────────────

  predicate Positive(n: Option<int>) {
    n.Some? && n.value >= 1
  }

  /** No slot the kind calls for is left at zero or blank; a kind not in the list calls for nothing. */
  predicate SlotsOk(kind: string, hdd: Option<int>, ssd: Option<int>, nvme: Option<int>, perNode: Option<int>) {
    match kind
    case "nvme_only" | "ssd_only" | "hdd_only" => Positive(perNode)
    case "hybrid" => Positive(hdd) && Positive(ssd)
    case "hybrid_nvme" => Positive(hdd) && Positive(nvme)
    case _ => true
  }

  lemma LowerKind(s: string)
    requires s == "HDD" || s == "SSD" || s == "NVMe"
    ensures Lower(s) == if s == "HDD" then "hdd" else if s == "SSD" then "ssd" else "nvme"
  {
    if s == "HDD" {
      assert Lower("D") == ['d'] + Lower("");
      assert "DD"[1..] == "D" && Lower("DD") == ['d'] + Lower("D");
      assert s[1..] == "DD" && Lower(s) == ['h'] + Lower("DD");
    } else if s == "SSD" {
      assert Lower("D") == ['d'] + Lower("");
      assert "SD"[1..] == "D" && Lower("SD") == ['s'] + Lower("D");
      assert s[1..] == "SD" && Lower(s) == ['s'] + Lower("SD");
    } else {
      assert Lower("e") == ['e'] + Lower("");
      assert "Me"[1..] == "e" && Lower("Me") == ['m'] + Lower("e");
      assert "VMe"[1..] == "Me" && Lower("VMe") == ['v'] + Lower("Me");
      assert s[1..] == "VMe" && Lower(s) == ['n'] + Lower("VMe");
    }
  }
}
