/** The catalog's tables, written row by row by the import and read row by row by the export. */
module CatalogDb {
  import opened Sequences
  import opened Text
  import opened CatalogModel
  import opened CatalogGain
  import opened CatalogImport
  import opened CatalogExport

  // ── rows read on their own ────────────────────────────────────────────────

  function FieldsUpTo(env: Env, r: Row, columns: seq<Column>): map<Column, Cell> {
    map h | h in r && h in columns :: Coerce(env, h, r[h])
  }

  method CpuFieldsFromRow(env: Env, r: Row) returns (fields: map<Column, Cell>)
    ensures fields == CpuFields(env, r)
  {
    fields := map[];
    var columns := CpuColumns();
    for i := 0 to |columns|
      invariant fields == FieldsUpTo(env, r, columns[..i])
    {
      var h := columns[i];
      assert columns[..i+1] == columns[..i] + [h];
      if h in r {
        fields := fields[h := Coerce(env, h, r[h])];
      }
    }
    assert columns[..|columns|] == columns;
    forall h ensures h in columns <==> h == Description || IsSpecColumn(h) {
      CpuColumnsAre(h);
    }
  }

  function AppliedUpTo(spec: Spec, fields: map<Column, Cell>, columns: seq<Column>, overwrite: bool): Spec {
    map h | h in spec :: if h in fields && h in columns then Chosen(spec[h], fields[h], overwrite) else spec[h]
  }

  /** Writes the columns one by one; the flag says whether any value moved. */
  method ApplyCpuRow(was: Spec, fields: map<Column, Cell>, overwrite: bool) returns (spec: Spec, changed: bool)
    requires forall h :: h in was ==> IsSpecColumn(h)
    ensures spec == ApplySpec(was, fields, overwrite) && (changed <==> spec != was)
  {
    spec, changed := was, false;
    ghost var moved := Description;
    var columns := CpuColumns();
    assert AppliedUpTo(was, fields, [], overwrite) == was;
    for i := 0 to |columns|
      invariant spec == AppliedUpTo(was, fields, columns[..i], overwrite)
      invariant !changed ==> spec == was
      invariant changed ==> moved in was && moved in fields && spec[moved] == fields[moved] != was[moved]
    {
      var h := columns[i];
      assert columns[..i+1] == columns[..i] + [h];
      OneColumn(was, fields, columns[..i], h, overwrite);
      if h in fields && h in spec && fields[h] != Empty && (overwrite || spec[h] == Empty) && spec[h] != fields[h] {
        spec := spec[h := fields[h]];
        changed, moved := true, h;
      }
    }
    AllColumns(was, fields, columns, overwrite);
  }

  lemma AllColumns(was: Spec, fields: map<Column, Cell>, columns: seq<Column>, overwrite: bool)
    requires columns == CpuColumns() && forall h :: h in was ==> IsSpecColumn(h)
    ensures AppliedUpTo(was, fields, columns[..|columns|], overwrite) == ApplySpec(was, fields, overwrite)
  {
    assert columns[..|columns|] == columns;
    forall h | h in was ensures h in columns {
      CpuColumnsAre(h);
    }
  }

  lemma OneColumn(was: Spec, fields: map<Column, Cell>, columns: seq<Column>, h: Column, overwrite: bool)
    ensures var spec := AppliedUpTo(was, fields, columns, overwrite);
            && AppliedUpTo(was, fields, columns + [h], overwrite)
               == (if h in fields && h in spec then spec[h := Chosen(spec[h], fields[h], overwrite)] else spec)
            && (h in fields && h in spec ==> spec[h] == was[h] || spec[h] == fields[h])
  {
    var spec := AppliedUpTo(was, fields, columns, overwrite);
    var next := AppliedUpTo(was, fields, columns + [h], overwrite);
    assert next == if h in fields && h in spec then spec[h := Chosen(spec[h], fields[h], overwrite)] else spec;
  }

  /** The option rows filed under their models; a row that cannot be read stops everything. */
  method FileByModel<T(!new)>(rows: seq<Parsed<T>>) returns (ok: bool, filed: map<string, seq<T>>)
    ensures ok == Items(rows).Ok?
    ensures ok ==> Files(filed, Items(rows).value)
  {
    filed := map[];
    ghost var items: seq<Item<T>> := [];
    for i := 0 to |rows|
      invariant Items(rows[..i]) == Ok(items) && Files(filed, items)
    {
      assert rows[..i+1][..i] == rows[..i];
      var r := rows[i];
      if r.name != "" {
        if r.value.Err? {
          StaysErr(rows, i + 1);
          return false, map[];
        }
        FileOne(filed, items, r.name, r.value.value);
        filed := filed[r.name := Under(filed, r.name) + [r.value.value]];
        items := items + [Item(r.name, r.value.value)];
      }
    }
    assert rows[..|rows|] == rows;
    ok := true;
  }

  /** Looking a model up gives its values in sheet order. */
  ghost predicate Files<T(!new)>(filed: map<string, seq<T>>, items: seq<Item<T>>) {
    forall name :: Under(filed, name) == For(items, name)
  }

  lemma FileOne<T(!new)>(filed: map<string, seq<T>>, items: seq<Item<T>>, name: string, value: T)
    requires Files(filed, items)
    ensures Files(filed[name := Under(filed, name) + [value]], items + [Item(name, value)])
  {
    var more := items + [Item(name, value)];
    var after := filed[name := Under(filed, name) + [value]];
    assert more[..|more|-1] == items;
    forall q ensures Under(after, q) == For(more, q) {
      assert Under(filed, q) == For(items, q);
    }
  }

  function Under<T>(filed: map<string, seq<T>>, name: string): seq<T> {
    if name in filed then filed[name] else []
  }

  lemma {:induction false} StaysErr<T>(rows: seq<Parsed<T>>, n: nat)
    requires n <= |rows| && Items(rows[..n]).Err?
    ensures Items(rows).Err?
  {
    if n == |rows| {
      assert rows[..n] == rows;
    } else {
      assert rows[..|rows|-1][..n] == rows[..n];
      StaysErr(rows[..|rows|-1], n);
    }
  }

  method StorageByModel(env: Env, rows: seq<Row>) returns (ok: bool, stor: map<string, StorageData>)
    ensures ok == StorageMap(env, rows).Ok?
    ensures ok ==> stor == StorageMap(env, rows).value
  {
    stor := map[];
    for i := 0 to |rows|
      invariant StorageMap(env, rows[..i]) == Ok(stor)
    {
      assert rows[..i+1][..i] == rows[..i];
      var name := TextOf(env, rows[i], ModelName);
      if name != "" {
        var data := StorageOf(env, rows[i]);
        if data.Err? {
          StorageErr(env, rows, i + 1);
          return false, map[];
        }
        stor := stor[name := data.value];
      }
    }
    assert rows[..|rows|] == rows;
    ok := true;
  }

  lemma {:induction false} StorageErr(env: Env, rows: seq<Row>, n: nat)
    requires n <= |rows| && StorageMap(env, rows[..n]).Err?
    ensures StorageMap(env, rows).Err?
  {
    if n == |rows| {
      assert rows[..n] == rows;
    } else {
      assert rows[..|rows|-1][..n] == rows[..n];
      StorageErr(env, rows[..|rows|-1], n);
    }
  }

  lemma {:induction false} NicsErr(env: Env, nics: map<string, Nic>, rows: seq<Row>, overwrite: bool, n: nat)
    requires n <= |rows| && NicRows(env, nics, rows[..n], overwrite).Err?
    ensures NicRows(env, nics, rows, overwrite).Err?
  {
    if n == |rows| {
      assert rows[..n] == rows;
    } else {
      assert rows[..|rows|-1][..n] == rows[..n];
      NicsErr(env, nics, rows[..|rows|-1], overwrite, n);
    }
  }

  lemma {:induction false} DrivesErr(env: Env, drives: set<Drive>, rows: seq<Row>, n: nat)
    requires n <= |rows| && DriveRows(env, drives, rows[..n]).Err?
    ensures DriveRows(env, drives, rows).Err?
  {
    if n == |rows| {
      assert rows[..n] == rows;
    } else {
      assert rows[..|rows|-1][..n] == rows[..n];
      DrivesErr(env, drives, rows[..|rows|-1], n);
    }
  }

  lemma {:induction false} ModelsErr(env: Env, w: Work, options: Options, rows: seq<Row>, overwrite: bool, n: nat)
    requires n <= |rows| && ModelRows(env, w, options, rows[..n], overwrite).Err?
    ensures ModelRows(env, w, options, rows, overwrite).Err?
  {
    if n == |rows| {
      assert rows[..n] == rows;
    } else {
      assert rows[..|rows|-1][..n] == rows[..n];
      ModelsErr(env, w, options, rows[..|rows|-1], overwrite, n);
    }
  }

  // ── the tables ────────────────────────────────────────────────────────────

  lemma CpuRowTyped(env: Env, cpus: map<string, Spec>, r: Row, overwrite: bool)
    requires SpecsTyped(cpus)
    ensures SpecsTyped(CpuRow(env, cpus, r, overwrite))
  {
  }

  lemma {:induction false} WithCpusTyped(cpus: map<string, Spec>, options: seq<CpuOption>)
    requires SpecsTyped(cpus)
    ensures SpecsTyped(WithCpus(cpus, options))
  {
    if options != [] {
      WithCpusTyped(cpus, options[..|options|-1]);
    }
  }

  lemma WithCpusStep(cpus: map<string, Spec>, options: seq<CpuOption>, i: nat)
    requires i < |options|
    ensures WithCpus(cpus, options[..i+1]) == WithCpu(WithCpus(cpus, options[..i]), options[i])
  {
    assert options[..i+1][..i] == options[..i];
  }

  lemma CpuLinksStep(options: seq<CpuOption>, i: nat)
    requires i < |options|
    ensures CpuLinks(options)[..i+1] == CpuLinks(options)[..i] + [Link(BaseDesc(options[i].desc), options[i].qty)]
  {
  }

  lemma WithNicsStep(nics: map<string, Nic>, options: seq<NicOption>, i: nat)
    requires i < |options|
    ensures WithNics(nics, options[..i+1]) == WithNic(WithNics(nics, options[..i]), options[i])
  {
    assert options[..i+1][..i] == options[..i];
  }

  lemma NicLinksStep(options: seq<NicOption>, i: nat)
    requires i < |options|
    ensures NicLinks(options)[..i+1] == NicLinks(options)[..i] + [Link(BaseDesc(options[i].desc), options[i].qty)]
  {
  }

  lemma ModelSheetsStep(c: Catalog, names: seq<string>, i: nat)
    requires i < |names| && forall j :: 0 <= j < |names| ==> names[j] in c.models
    ensures ModelSheet(c, names)[..i+1] == ModelSheet(c, names)[..i] + [ModelRowOf(names[i], c.models[names[i]])]
    ensures ModelCpuSheet(c, names[..i+1])
            == ModelCpuSheet(c, names[..i]) + CpuBlock(c, names[i], c.models[names[i]].cpus)
    ensures ModelNicSheet(c, names[..i+1])
            == ModelNicSheet(c, names[..i]) + NicBlock(c, names[i], c.models[names[i]].nics)
  {
    assert names[..i+1][..i] == names[..i];
  }

  class Database {
    var cpus: map<string, Spec>
    var nics: map<string, Nic>
    var drives: set<Drive>
    var models: map<string, Model>
    var iops: map<string, int>
    var settings: map<string, real>

    constructor ()
      ensures View() == EMPTY_CATALOG && Valid()
    {
      cpus, nics, drives, models, iops, settings := map[], map[], {}, map[], map[], map[];
    }

    function View(): Catalog
      reads this
    {
      Catalog(cpus, nics, drives, models, iops, settings)
    }

    /** CPU rows have the CPU columns and no others. */
    ghost predicate Valid()
      reads this`cpus
    {
      SpecsTyped(cpus)
    }

    // ── catalog sheets ──────────────────────────────────────────────────────

    method ImportCpuRow(env: Env, r: Row, overwrite: bool)
      requires Valid()
      modifies this`cpus
      ensures Valid() && cpus == CpuRow(env, old(cpus), r, overwrite)
    {
      CpuRowTyped(env, cpus, r, overwrite);
      var fields := CpuFieldsFromRow(env, r);
      var desc := DescOf(fields);
      if desc == "" {
        return;
      }
      if desc in cpus {
        var spec, changed := ApplyCpuRow(cpus[desc], fields, overwrite);
        cpus := cpus[desc := spec];
      } else {
        var bare := BareSpec(OrZero(fields, Cores, Whole(0)), OrZero(fields, Threads, Whole(0)),
                             OrZero(fields, Ghz, Dec(0.0)));
        var spec, changed := ApplyCpuRow(bare, fields, true);
        cpus := cpus[desc := spec];
      }
    }

    method ImportCpus(env: Env, rows: seq<Row>, overwrite: bool)
      requires Valid()
      modifies this`cpus
      ensures Valid() && cpus == CpuRows(env, old(cpus), rows, overwrite)
    {
      for i := 0 to |rows|
        invariant Valid() && cpus == CpuRows(env, old(cpus), rows[..i], overwrite)
      {
        assert rows[..i+1][..i] == rows[..i];
        ImportCpuRow(env, rows[i], overwrite);
      }
      assert rows[..|rows|] == rows;
    }

    method ImportNics(env: Env, rows: seq<Row>, overwrite: bool) returns (ok: bool)
      modifies this`nics
      ensures ok == NicRows(env, old(nics), rows, overwrite).Ok?
      ensures ok ==> nics == NicRows(env, old(nics), rows, overwrite).value
    {
      for i := 0 to |rows|
        invariant NicRows(env, old(nics), rows[..i], overwrite) == Ok(nics)
      {
        assert rows[..i+1][..i] == rows[..i];
        var desc := TextOf(env, rows[i], Description);
        if desc != "" {
          var ports := IntOf(env, rows[i], Ports, 0);
          if ports.Err? {
            NicsErr(env, old(nics), rows, overwrite, i + 1);
            return false;
          }
          if desc !in nics || overwrite {
            nics := nics[desc := Nic(ports.value, TextOf(env, rows[i], Speed))];
          }
        }
      }
      assert rows[..|rows|] == rows;
      ok := true;
    }

    method ImportDrives(env: Env, rows: seq<Row>) returns (ok: bool)
      modifies this`drives
      ensures ok == DriveRows(env, old(drives), rows).Ok?
      ensures ok ==> drives == DriveRows(env, old(drives), rows).value
    {
      for i := 0 to |rows|
        invariant DriveRows(env, old(drives), rows[..i]) == Ok(drives)
      {
        assert rows[..i+1][..i] == rows[..i];
        var tb, kind := RealOf(env, rows[i], SizeTb), TextOf(env, rows[i], Kind);
        if tb.Err? {
          DrivesErr(env, old(drives), rows, i + 1);
          return false;
        }
        if kind != "" && tb.value > 0.0 {
          drives := drives + {Drive(kind, tb.value)};
        }
      }
      assert rows[..|rows|] == rows;
      ok := true;
    }

    // ── models ──────────────────────────────────────────────────────────────

    method LinkCpus(options: seq<CpuOption>) returns (links: seq<Link>)
      requires Valid()
      modifies this`cpus
      ensures Valid() && cpus == WithCpus(old(cpus), options) && links == CpuLinks(options)
      ensures forall k :: CreatedBySome(cpus, old(cpus), options, k)
    {
      WithCpusTyped(cpus, options);
      ghost var was := cpus;
      links := [];
      for i := 0 to |options|
        invariant cpus == WithCpus(was, options[..i]) && links == CpuLinks(options)[..i]
      {
        WithCpusStep(was, options, i);
        CpuLinksStep(options, i);
        LinkCpu(options[i]);
        links := links + [Link(BaseDesc(options[i].desc), options[i].qty)];
      }
      assert options[..|options|] == options;
      forall k ensures CreatedBySome(cpus, was, options, k) {
        var i := CpuCreated(was, options, k);
      }
    }

    method LinkCpu(o: CpuOption)
      modifies this`cpus
      ensures cpus == WithCpu(old(cpus), o)
    {
      var desc := BaseDesc(o.desc);
      if desc !in cpus {
        cpus := cpus[desc := BareSpec(Whole(o.cores), Whole(o.threads), Dec(o.ghz))];
      }
    }

    method LinkNics(options: seq<NicOption>) returns (links: seq<Link>)
      modifies this`nics
      ensures nics == WithNics(old(nics), options) && links == NicLinks(options)
    {
      ghost var was := nics;
      links := [];
      for i := 0 to |options|
        invariant nics == WithNics(was, options[..i]) && links == NicLinks(options)[..i]
      {
        WithNicsStep(was, options, i);
        NicLinksStep(options, i);
        LinkNic(options[i]);
        links := links + [Link(BaseDesc(options[i].desc), options[i].qty)];
      }
      assert options[..|options|] == options;
    }

    method LinkNic(o: NicOption)
      modifies this`nics
      ensures nics == WithNic(old(nics), o)
    {
      var desc := BaseDesc(o.desc);
      if desc !in nics {
        nics := nics[desc := Nic(o.ports, o.speed)];
      }
    }

    method StoreDrives(data: StorageData) returns (ok: bool, storage: Option<Storage>)
      modifies this`drives
      ensures ok == (data == NO_STORAGE || BuildStorage(data).Ok?)
      ensures data == NO_STORAGE ==> storage == None && drives == old(drives)
      ensures data != NO_STORAGE && ok ==>
                storage == Some(BuildStorage(data).value) && drives == old(drives) + storage.value.drives
    {
      ok, storage := true, None;
      if data != NO_STORAGE {
        var built := BuildStorage(data);
        ok := built.Ok?;
        if ok {
          storage := Some(built.value);
          drives := drives + built.value.drives;
        }
      }
    }

    method BuildModelRow(env: Env, name: string, r: Row, cpuOptions: seq<CpuOption>, sizes: seq<int>,
                         nicOptions: seq<NicOption>, data: StorageData, ghost options: Options) returns (ok: bool)
      requires Valid()
      requires cpuOptions == For(options.cpus, name) && sizes == For(options.ram, name)
      requires nicOptions == For(options.nics, name)
      modifies this
      ensures ok == BuildModel(env, old(View()), name, r, options, data).Ok?
      ensures ok ==> Valid() && View() == BuildModel(env, old(View()), name, r, options, data).value
    {
      BuildsWhen(env, View(), name, r, options, data);
      var fields := ModelFields(env, name, r);
      if fields.Err? || !Distinct(CpuLinks(cpuOptions)) || !Distinct(NicLinks(nicOptions)) {
        return false;
      }
      ok := WriteModel(name, fields.value, cpuOptions, sizes, nicOptions, data);
    }

    method WriteModel(name: string, fields: Model, cpuOptions: seq<CpuOption>, sizes: seq<int>,
                      nicOptions: seq<NicOption>,
                      data: StorageData) returns (ok: bool)
      requires Valid()
      modifies this
      ensures ok == (data == NO_STORAGE || BuildStorage(data).Ok?)
      ensures ok ==> Valid() && View() == Built(old(View()), name, fields, cpuOptions, sizes, nicOptions,
                                                if data == NO_STORAGE then None else Some(BuildStorage(data).value))
    {
      var storage;
      ok, storage := StoreDrives(data);
      if ok {
        var cpuLinks := LinkCpus(cpuOptions);
        var nicLinks := LinkNics(nicOptions);
        models := models[name := fields.(cpus := cpuLinks, ram := multiset(sizes), storage := storage,
                                         nics := nicLinks)];
      }
    }

    method ImportModelRow(env: Env, r: Row, stor: map<string, StorageData>, cpuOptions: map<string, seq<CpuOption>>,
                          sizes: map<string, seq<int>>, driveOptions: map<string, seq<Drive>>,
                          nicOptions: map<string, seq<NicOption>>, ghost options: Options, overwrite: bool)
      returns (ok: bool, after: map<string, StorageData>)
      requires Valid()
      requires Files(cpuOptions, options.cpus) && Files(sizes, options.ram)
      requires Files(driveOptions, options.drives) && Files(nicOptions, options.nics)
      modifies this
      ensures ok == ModelRow(env, Work(old(View()), stor), options, r, overwrite).Ok?
      ensures ok ==>
                Valid() && Work(View(), after) == ModelRow(env, Work(old(View()), stor), options, r, overwrite).value
    {
      var name := TextOf(env, r, Name);
      if name == "" || (name in models && !overwrite) {
        return true, stor;
      }
      var data := AddDrives(if name in stor then stor[name] else NO_STORAGE, Under(driveOptions, name));
      after := if name in stor then stor[name := data] else stor;
      ok := BuildModelRow(env, name, r, Under(cpuOptions, name), Under(sizes, name), Under(nicOptions, name), data,
                          options);
    }

    method ImportModelRows(env: Env, rows: seq<Row>, stor: map<string, StorageData>,
                           cpuOptions: map<string, seq<CpuOption>>,
                           sizes: map<string, seq<int>>, driveOptions: map<string, seq<Drive>>,
                           nicOptions: map<string, seq<NicOption>>, ghost options: Options, overwrite: bool)
      returns (ok: bool)
      requires Valid()
      requires Files(cpuOptions, options.cpus) && Files(sizes, options.ram)
      requires Files(driveOptions, options.drives) && Files(nicOptions, options.nics)
      modifies this
      ensures ok == ModelRows(env, Work(old(View()), stor), options, rows, overwrite).Ok?
      ensures ok ==>
                Valid() && View() == ModelRows(env, Work(old(View()), stor), options, rows, overwrite).value.catalog
    {
      ghost var start := Work(View(), stor);
      var shared := stor;
      for i := 0 to |rows|
        invariant Valid() && ModelRows(env, start, options, rows[..i], overwrite) == Ok(Work(View(), shared))
      {
        assert rows[..i+1][..i] == rows[..i];
        ok, shared := ImportModelRow(env, rows[i], shared, cpuOptions, sizes, driveOptions, nicOptions, options,
                                     overwrite);
        if !ok {
          ModelsErr(env, start, options, rows, overwrite, i + 1);
          return;
        }
      }
      assert rows[..|rows|] == rows;
      ok := true;
    }

    method ImportModelSheets(env: Env, wb: Workbook, overwrite: bool) returns (ok: bool)
      requires Valid()
      modifies this
      ensures ok == ImportModels(env, old(View()), wb, overwrite).Ok?
      ensures ok ==> Valid() && View() == ImportModels(env, old(View()), wb, overwrite).value
    {
      var rows := Rows(wb, Models);
      if rows == [] {
        return true;
      }
      var cpuRows := CpuParsed(env, RowsOr(wb, ModelCpus, OldCpus));
      var ramRows := RamParsed(env, RowsOr(wb, ModelRam, OldRam));
      var driveRows := DriveParsed(env, RowsOr(wb, ModelDrives, OldDrives));
      var nicRows := NicParsed(env, RowsOr(wb, ModelNics, OldNics));
      var okCpus, cpuOptions := FileByModel(cpuRows);
      var okRam, sizes := FileByModel(ramRows);
      var okDrives, driveOptions := FileByModel(driveRows);
      var okNics, nicOptions := FileByModel(nicRows);
      var okStorage, stor := StorageByModel(env, RowsOr(wb, ModelStorage, OldStorage));
      if !okCpus || !okRam || !okDrives || !okNics || !okStorage {
        return false;
      }
      ghost var options := OptionsOf(env, wb).value;
      ok := ImportModelRows(env, rows, stor, cpuOptions, sizes, driveOptions, nicOptions, options, overwrite);
    }

    // ── key/value sheets ────────────────────────────────────────────────────

    method ImportIops(env: Env, rows: seq<Row>, overwrite: bool)
      modifies this`iops
      ensures iops == IopsRows(env, old(iops), rows, overwrite)
    {
      for i := 0 to |rows|
        invariant iops == IopsRows(env, old(iops), rows[..i], overwrite)
      {
        assert rows[..i+1][..i] == rows[..i];
        var key, value := TextOf(env, rows[i], DriveType), ToInt(env, Get(rows[i], IopsValue, Empty));
        if key != "" && value.Some? && (key !in iops || overwrite) {
          iops := iops[key := value.value];
        }
      }
      assert rows[..|rows|] == rows;
    }

    method ImportSettings(env: Env, rows: seq<Row>, overwrite: bool)
      modifies this`settings
      ensures settings == SettingRows(env, old(settings), rows, overwrite)
    {
      for i := 0 to |rows|
        invariant settings == SettingRows(env, old(settings), rows[..i], overwrite)
      {
        assert rows[..i+1][..i] == rows[..i];
        var key, value := TextOf(env, rows[i], Key), ToReal(env, Get(rows[i], Value, Empty));
        if key != "" && value.Some? && (key !in settings || overwrite) {
          settings := settings[key := value.value];
        }
      }
      assert rows[..|rows|] == rows;
    }

    // ── the whole workbook ──────────────────────────────────────────────────

    method ImportCatalogSheets(env: Env, wb: Workbook, overwrite: bool) returns (ok: bool)
      requires Valid()
      modifies this
      ensures ok == ImportParts(env, old(View()), wb, overwrite).Ok?
      ensures ok ==> Valid() && View() == ImportParts(env, old(View()), wb, overwrite).value
    {
      ImportCpus(env, Rows(wb, Cpus), overwrite);
      ok := ImportNics(env, Rows(wb, Nics), overwrite);
      if ok {
        ok := ImportDrives(env, Rows(wb, Drives));
      }
    }

    method ImportConfigSheets(env: Env, wb: Workbook, overwrite: bool)
      requires Valid()
      modifies this
      ensures Valid() && View() == ImportConfig(env, old(View()), wb, overwrite)
    {
      ImportIops(env, Rows(wb, DriveIops), overwrite);
      ImportSettings(env, Rows(wb, Settings), overwrite);
    }

    method ImportSheets(env: Env, wb: Workbook, overwrite: bool) returns (ok: bool)
      requires Valid() && Recognised(wb)
      modifies this
      ensures ok == Import(env, old(View()), wb, overwrite).Ok?
      ensures ok ==> Valid() && View() == Import(env, old(View()), wb, overwrite).value
    {
      ok := ImportCatalogSheets(env, wb, overwrite);
      if ok {
        ok := ImportModelSheets(env, wb, overwrite);
      }
      if ok {
        ImportConfigSheets(env, wb, overwrite);
      }
    }

    /** A refused workbook is rolled back. */
    method ImportWorkbook(env: Env, wb: Workbook, overwrite: bool) returns (ok: bool)
      requires Valid()
      modifies this
      ensures Valid() && View() == After(env, old(View()), wb, overwrite)
      ensures ok == Import(env, old(View()), wb, overwrite).Ok?
    {
      if !Recognised(wb) {
        return false;
      }
      var cpus0, nics0, drives0, models0, iops0, settings0 := cpus, nics, drives, models, iops, settings;
      ok := ImportSheets(env, wb, overwrite);
      if !ok {
        cpus, nics, drives, models, iops, settings := cpus0, nics0, drives0, models0, iops0, settings0;
      }
    }

    // ── the backup ──────────────────────────────────────────────────────────

    method ExportCatalogSheets(o: Order) returns (cpuRows: seq<Row>, nicRows: seq<Row>, driveRows: seq<Row>)
      ensures cpuRows == CpuSheet(View(), o.cpus) && nicRows == NicSheet(View(), o.nics)
      ensures driveRows == DriveSheet(o.drives)
    {
      cpuRows, nicRows, driveRows := [], [], [];
      ghost var cpuSheet, nicSheet := CpuSheet(View(), o.cpus), NicSheet(View(), o.nics);
      ghost var driveSheet := DriveSheet(o.drives);
      for i := 0 to |o.cpus|
        invariant cpuRows == cpuSheet[..i]
      {
        cpuRows := cpuRows + [CpuRowOf(o.cpus[i], if o.cpus[i] in cpus then cpus[o.cpus[i]] else map[])];
      }
      for i := 0 to |o.nics|
        invariant nicRows == nicSheet[..i]
      {
        nicRows := nicRows + [NicRowOf(o.nics[i], if o.nics[i] in nics then nics[o.nics[i]] else Nic(0, ""))];
      }
      for i := 0 to |o.drives|
        invariant driveRows == driveSheet[..i]
      {
        driveRows := driveRows + [DriveRowOf(o.drives[i])];
      }
    }

    method ExportModelRows(o: Order) returns (rows: seq<Row>, cpuRows: seq<Row>, nicRows: seq<Row>)
      requires forall i :: 0 <= i < |o.models| ==> o.models[i] in models
      ensures rows == ModelSheet(View(), o.models)
      ensures cpuRows == ModelCpuSheet(View(), o.models) && nicRows == ModelNicSheet(View(), o.models)
    {
      rows, cpuRows, nicRows := [], [], [];
      ghost var sheet := ModelSheet(View(), o.models);
      for i := 0 to |o.models|
        invariant rows == sheet[..i]
        invariant cpuRows == ModelCpuSheet(View(), o.models[..i]) && nicRows == ModelNicSheet(View(), o.models[..i])
      {
        var name := o.models[i];
        ModelSheetsStep(View(), o.models, i);
        rows := rows + [ModelRowOf(name, models[name])];
        cpuRows := cpuRows + CpuBlock(View(), name, models[name].cpus);
        nicRows := nicRows + NicBlock(View(), name, models[name].nics);
      }
      assert o.models[..|o.models|] == o.models;
    }

    method ExportDiskRows(o: Order) returns (ramRows: seq<Row>, storRows: seq<Row>, driveRows: seq<Row>)
      requires forall i :: 0 <= i < |o.models| ==>
                o.models[i] in models && o.models[i] in o.ram && o.models[i] in o.modelDrives
      ensures ramRows == ModelRamSheet(o, o.models) && storRows == ModelStorageSheet(View(), o.models)
      ensures driveRows == ModelDriveSheet(o, o.models)
    {
      ramRows, storRows, driveRows := [], [], [];
      for i := 0 to |o.models|
        invariant ramRows == ModelRamSheet(o, o.models[..i]) && storRows == ModelStorageSheet(View(), o.models[..i])
        invariant driveRows == ModelDriveSheet(o, o.models[..i])
      {
        var name := o.models[i];
        assert o.models[..i+1][..i] == o.models[..i];
        ramRows := ramRows + RamBlock(name, o.ram[name]);
        if models[name].storage.Some? {
          storRows := storRows + [StorageRow(name, models[name].storage.value)];
        }
        driveRows := driveRows + DriveBlock(name, o.modelDrives[name]);
      }
      assert o.models[..|o.models|] == o.models;
    }

    method ExportConfigSheets(o: Order) returns (iopsRows: seq<Row>, settingRows: seq<Row>)
      ensures iopsRows == IopsSheet(View(), o.iops) && settingRows == SettingSheet(View(), o.settings)
    {
      iopsRows, settingRows := [], [];
      ghost var iopsSheet, settingSheet := IopsSheet(View(), o.iops), SettingSheet(View(), o.settings);
      for i := 0 to |o.iops|
        invariant iopsRows == iopsSheet[..i]
      {
        var kind := o.iops[i];
        var value := if kind in iops then iops[kind] else 0;
        iopsRows := iopsRows + [map[DriveType := Write(kind), IopsValue := Whole(value)]];
      }
      for i := 0 to |o.settings|
        invariant settingRows == settingSheet[..i]
      {
        var key := o.settings[i];
        var value := if key in settings then settings[key] else 0.0;
        settingRows := settingRows + [map[Key := Write(key), Value := Dec(value)]];
      }
    }

    method ExportWorkbook(o: Order) returns (wb: Workbook)
      requires Lists(o, View())
      ensures wb == Export(View(), o)
    {
      var cpuRows, nicRows, driveRows := ExportCatalogSheets(o);
      ListedModels(View(), o);
      var rows, modelCpus, modelNics := ExportModelRows(o);
      var ram, stor, modelDrives := ExportDiskRows(o);
      var iopsRows, settingRows := ExportConfigSheets(o);
      wb := map[Cpus := cpuRows, Nics := nicRows, Drives := driveRows, Models := rows, ModelCpus := modelCpus,
                ModelRam := ram, ModelStorage := stor, ModelDrives := modelDrives, ModelNics := modelNics,
                DriveIops := iopsRows, Settings := settingRows];
    }
  }
}
