/** Restoring a workbook that lists a model twice. */
module CatalogRelist {
  import opened Sequences
  import opened Text
  import opened CatalogModel
  import opened CatalogImport

  // ── what the drive rows add ───────────────────────────────────────────────

  function Under(kind: string, drives: seq<Drive>): seq<real> {
    if drives == [] then []
    else
      var d := drives[|drives|-1];
      Under(kind, drives[..|drives|-1]) + (if Lower(d.kind) == kind then [d.tb] else [])
  }

  predicate OtherAmong(drives: seq<Drive>) {
    exists i :: 0 <= i < |drives| && Lower(drives[i].kind) != "hdd" && Lower(drives[i].kind) != "ssd"
                && Lower(drives[i].kind) != "nvme"
  }

  /** Some drive row of a kind a storage block lists. */
  predicate ListsDrives(drives: seq<Drive>) {
    Under("hdd", drives) != [] || Under("ssd", drives) != [] || Under("nvme", drives) != []
  }

  lemma {:induction false} DrivesAppend(data: StorageData, drives: seq<Drive>)
    ensures AddDrives(data, drives)
            == data.(hddTb := data.hddTb + Under("hdd", drives), ssdTb := data.ssdTb + Under("ssd", drives),
                     nvmeTb := data.nvmeTb + Under("nvme", drives), other := data.other || OtherAmong(drives))
  {
    if drives != [] {
      var front, last := drives[..|drives|-1], drives[|drives|-1];
      DrivesAppend(data, front);
      OtherPush(drives);
      OneDrive(AddDrives(data, front), last);
    }
  }

  lemma OneDrive(data: StorageData, d: Drive)
    ensures var k := Lower(d.kind);
            AddDrive(data, d) == data.(hddTb := data.hddTb + (if k == "hdd" then [d.tb] else []),
                                       ssdTb := data.ssdTb + (if k == "ssd" then [d.tb] else []),
                                       nvmeTb := data.nvmeTb + (if k == "nvme" then [d.tb] else []),
                                       other := data.other || (k != "hdd" && k != "ssd" && k != "nvme"))
  {
  }

  lemma OtherPush(drives: seq<Drive>)
    requires drives != []
    ensures var k := Lower(drives[|drives|-1].kind);
            OtherAmong(drives) <==> OtherAmong(drives[..|drives|-1]) || (k != "hdd" && k != "ssd" && k != "nvme")
  {
  }

  lemma TwiceNotDistinct(a: seq<real>, b: seq<real>)
    requires b != []
    ensures !Distinct(a + b + b)
  {
    var s := a + b + b;
    assert s[|a|] == b[0] && s[|a| + |b|] == b[0];
  }

  // ── when the second row is refused ────────────────────────────────────────

  /** The storage data a model's second row finds, given what its first row left. */
  lemma SecondStorage(stor: map<string, StorageData>, options: Options, name: string)
    ensures var drives, first := For(options.drives, name), StorageFor(stor, options, name);
            var next := if name in stor then stor[name := first] else stor;
            var second := StorageFor(next, options, name);
            && (name !in stor || !ListsDrives(drives) ==> second == first)
            && (name in stor && ListsDrives(drives) ==> second != NO_STORAGE && BuildStorage(second) == Err)
  {
    var drives := For(options.drives, name);
    if name in stor {
      var first := AddDrives(stor[name], drives);
      DrivesAppend(stor[name], drives);
      DrivesAppend(first, drives);
      if Under("hdd", drives) != [] {
        TwiceNotDistinct(stor[name].hddTb, Under("hdd", drives));
      } else if Under("ssd", drives) != [] {
        TwiceNotDistinct(stor[name].ssdTb, Under("ssd", drives));
      } else if Under("nvme", drives) != [] {
        TwiceNotDistinct(stor[name].nvmeTb, Under("nvme", drives));
      }
    }
  }

  /** A restore that meets a model's name again refuses exactly when the model has a storage row and a drive: the second
      row finds the drives its first row added. */
  lemma RelistedModelRefused(env: Env, w: Work, options: Options, r: Row, again: Row)
    requires TextOf(env, r, Name) == TextOf(env, again, Name) != ""
    requires ModelRow(env, w, options, r, true).Ok? && ModelFields(env, TextOf(env, again, Name), again).Ok?
    ensures ModelRow(env, ModelRow(env, w, options, r, true).value, options, again, true) == Err
            <==> TextOf(env, r, Name) in w.stor && ListsDrives(For(options.drives, TextOf(env, r, Name)))
  {
    var name := TextOf(env, r, Name);
    var first := StorageFor(w.stor, options, name);
    var next := ModelRow(env, w, options, r, true).value;
    BuildsWhen(env, w.catalog, name, r, options, first);
    SecondStorage(w.stor, options, name);
    BuildsWhen(env, next.catalog, name, again, options, StorageFor(next.stor, options, name));
  }

  // ── a workbook that does it ───────────────────────────────────────────────

  const MODEL_ROW: Row := map[Name := Words("A")]
  const STORAGE_ROW: Row := map[ModelName := Words("A"), Kind := Words("hdd_only"), DrivesPerNode := Whole(4)]
  const DRIVE_ROW: Row := map[ModelName := Words("A"), DriveType := Words("HDD"), SizeTb := Dec(8.0)]

  /** A workbook of one model with four 8 TB disks, its model row given so many times. */
  function Listing(times: nat): Workbook {
    map[Models := seq(times, _ => MODEL_ROW), ModelStorage := [STORAGE_ROW], ModelDrives := [DRIVE_ROW]]
  }

  const DISKS := NO_STORAGE.(kind := Some("hdd_only"), perNode := Some(4))

  lemma ModelReads(env: Env)
    ensures TextOf(env, MODEL_ROW, Name) == "A" && ModelFields(env, "A", MODEL_ROW).Ok?
  {
    assert Strip("A") == "A";
  }

  lemma StorageReads(env: Env)
    ensures StorageMap(env, [STORAGE_ROW]) == Ok(map["A" := DISKS])
  {
    assert Strip("A") == "A" && Strip("hdd_only") == "hdd_only";
    assert [STORAGE_ROW][..0] == [];
    assert StorageOf(env, STORAGE_ROW) == Ok(DISKS);
  }

  lemma DriveReads(env: Env)
    ensures Items(DriveParsed(env, [DRIVE_ROW])) == Ok([Item("A", Drive("HDD", 8.0))])
  {
    assert Strip("A") == "A" && Strip("HDD") == "HDD";
    assert TextOf(env, DRIVE_ROW, ModelName) == "A" && DriveOptionOf(env, DRIVE_ROW) == Ok(Drive("HDD", 8.0));
    assert DriveParsed(env, [DRIVE_ROW]) == [Parsed("A", Ok(Drive("HDD", 8.0)))];
    OneItem("A", Drive("HDD", 8.0));
  }

  lemma OneItem<T>(name: string, value: T)
    requires name != ""
    ensures Items([Parsed(name, Ok(value))]) == Ok([Item(name, value)])
  {
    var rows: seq<Parsed<T>> := [Parsed(name, Ok(value))];
    assert rows[..|rows|-1] == [];
    assert Items(rows[..|rows|-1]) == Ok([]);
    assert [] + [Item(name, value)] == [Item(name, value)];
  }

  const LISTED := Options([], [], [Item("A", Drive("HDD", 8.0))], [])

  lemma OptionsRead(env: Env, n: nat)
    ensures OptionsOf(env, Listing(n)) == Ok(LISTED)
  {
    DriveReads(env);
    var wb := Listing(n);
    assert RowsOr(wb, ModelCpus, OldCpus) == [] && RowsOr(wb, ModelRam, OldRam) == [];
    assert RowsOr(wb, ModelNics, OldNics) == [];
    assert RowsOr(wb, ModelDrives, OldDrives) == [DRIVE_ROW];
  }

  lemma DisksFiled()
    ensures For(LISTED.drives, "A") == [Drive("HDD", 8.0)] && For(LISTED.cpus, "A") == [] && For(LISTED.nics, "A") == []
    ensures Under("hdd", [Drive("HDD", 8.0)]) == [8.0]
  {
    OneFiled("A", Drive("HDD", 8.0));
    LowerKind("HDD");
    assert [Drive("HDD", 8.0)][..0] == [];
  }

  lemma OneFiled<T>(name: string, value: T)
    ensures For([Item(name, value)], name) == [value]
  {
    assert [Item(name, value)][..0] == [];
  }

  lemma FirstData()
    ensures var data := StorageFor(map["A" := DISKS], LISTED, "A");
            data == DISKS.(hddTb := [8.0]) && BuildStorage(data).Ok?
  {
    var disks := [Drive("HDD", 8.0)];
    DisksFiled();
    DrivesAppend(DISKS, disks);
    assert disks[..0] == [];
    assert Under("hdd", disks) == [8.0] && Under("ssd", disks) == [] && Under("nvme", disks) == [];
    assert !OtherAmong(disks);
  }

  lemma FirstRowAccepted(env: Env)
    ensures ModelRow(env, Work(EMPTY_CATALOG, map["A" := DISKS]), LISTED, MODEL_ROW, true).Ok?
  {
    ModelReads(env);
    DisksFiled();
    FirstData();
    BuildsWhen(env, EMPTY_CATALOG, "A", MODEL_ROW, LISTED, StorageFor(map["A" := DISKS], LISTED, "A"));
  }

  lemma RowsFold(env: Env, w: Work)
    ensures ModelRows(env, w, LISTED, [MODEL_ROW], true) == ModelRow(env, w, LISTED, MODEL_ROW, true)
    ensures ModelRow(env, w, LISTED, MODEL_ROW, true).Ok? ==>
              ModelRows(env, w, LISTED, [MODEL_ROW, MODEL_ROW], true)
              == ModelRow(env, ModelRow(env, w, LISTED, MODEL_ROW, true).value, LISTED, MODEL_ROW, true)
  {
    assert [MODEL_ROW][..0] == [] && [MODEL_ROW, MODEL_ROW][..1] == [MODEL_ROW];
  }

  /** Restored into an empty catalog, the workbook is accepted with its model listed once and refused with it listed
      twice. */
  lemma TwiceListedRefused(env: Env)
    ensures Import(env, EMPTY_CATALOG, Listing(1), true).Ok?
    ensures Import(env, EMPTY_CATALOG, Listing(2), true) == Err
  {
    var w := Work(EMPTY_CATALOG, map["A" := DISKS]);
    FirstRowAccepted(env);
    RowsFold(env, w);
    ModelReads(env);
    DisksFiled();
    RelistedModelRefused(env, w, LISTED, MODEL_ROW, MODEL_ROW);
    ListingImported(env, 1);
    ListingImported(env, 2);
    assert Rows(Listing(1), Models) == [MODEL_ROW] && Rows(Listing(2), Models) == [MODEL_ROW, MODEL_ROW];
  }

  lemma ListingImported(env: Env, n: nat)
    requires n > 0
    ensures Import(env, EMPTY_CATALOG, Listing(n), true).Ok?
            <==> ModelRows(env, Work(EMPTY_CATALOG, map["A" := DISKS]), LISTED, Rows(Listing(n), Models), true).Ok?
  {
    var wb := Listing(n);
    OptionsRead(env, n);
    StorageReads(env);
    assert |Rows(wb, Models)| == n && Recognised(wb);
    assert RowsOr(wb, ModelStorage, OldStorage) == [STORAGE_ROW];
    assert Rows(wb, Cpus) == [] && Rows(wb, Nics) == [] && Rows(wb, Drives) == [];
    assert ImportParts(env, EMPTY_CATALOG, wb, true) == Ok(EMPTY_CATALOG);
  }
}
