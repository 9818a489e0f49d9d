/** Restoring a backup over any catalog. */
module CatalogRestore {
  import opened Sequences
  import opened Text
  import opened CatalogModel
  import opened CatalogImport
  import opened CatalogExport
  import opened CatalogRows
  import opened CatalogBlocks

  // ── what the backup must hold ─────────────────────────────────────────────

  predicate CanonicalModel(env: Env, c: Catalog, name: string, m: Model) {
    && Plain(name) && CanonicalFields(env, name, m)
    && CanonicalLinks(c, m.cpus) && CanonicalNicLinks(c, m.nics)
    && (m.storage.Some? ==> CanonicalStorage(c, m.storage.value))
  }

  ghost predicate Canonical(env: Env, c: Catalog) {
    && (forall k :: k in c.cpus ==> Plain(k) && CanonicalSpec(c.cpus[k]))
    && (forall k :: k in c.nics ==> Plain(k) && Plain(c.nics[k].speed))
    && (forall d :: d in c.drives ==> Plain(d.kind) && d.tb > 0.0)
    && (forall k :: k in c.iops ==> Plain(k))
    && (forall k :: k in c.settings ==> Plain(k))
    && (forall k :: k in c.models ==> CanonicalModel(env, c, k, c.models[k]))
  }

  function MergedCpus(d: map<string, Spec>, cpus: map<string, Spec>): map<string, Spec> {
    map k | k in d.Keys + cpus.Keys ::
      if k !in cpus then d[k] else if k in d then Overlay(d[k], cpus[k]) else cpus[k]
  }

  /** The backup wins wherever it has a value; what only the catalog has stays. */
  function Merged(d: Catalog, c: Catalog): Catalog {
    Catalog(MergedCpus(d.cpus, c.cpus), d.nics + c.nics, d.drives + c.drives, d.models + c.models,
            d.iops + c.iops, d.settings + c.settings)
  }

  // ── CPUs, NICs, drives, key/value sheets ──────────────────────────────────

  /** What the CPUs named so far have become. */
  ghost predicate CpuAt(out: map<string, Spec>, d: map<string, Spec>, cpus: map<string, Spec>, names: seq<string>,
                        q: string) {
    && (q in out <==> q in d || (q in names && q in cpus))
    && (q in out && q !in names ==> out[q] == d[q])
    && (q in names && q in cpus ==> out[q] == if q in d then Overlay(d[q], cpus[q]) else cpus[q])
  }

  lemma CpuStep(out: map<string, Spec>, d: map<string, Spec>, cpus: map<string, Spec>, names: seq<string>, desc: string,
                q: string)
    requires CpuAt(out, d, cpus, names, q) && CpuAt(out, d, cpus, names, desc) && desc !in names && desc in cpus
    ensures var spec := if desc in out then Overlay(out[desc], cpus[desc]) else cpus[desc];
            CpuAt(out[desc := spec], d, cpus, names + [desc], q)
  {
  }

  lemma CpuSheetStep(c: Catalog, names: seq<string>)
    requires names != [] && names[|names|-1] in c.cpus
    ensures CpuSheet(c, names)
            == CpuSheet(c, names[..|names|-1]) + [CpuRowOf(names[|names|-1], c.cpus[names[|names|-1]])]
  {
    var sheet, n := CpuSheet(c, names), |names| - 1;
    forall i | 0 <= i < n ensures sheet[i] == CpuSheet(c, names[..n])[i] {
      assert names[..n][i] == names[i];
    }
    assert sheet == sheet[..n] + [sheet[n]];
  }

  lemma CpuRowsStep(env: Env, d: map<string, Spec>, rows: seq<Row>, before: seq<Row>, r: Row)
    requires rows == before + [r]
    ensures CpuRows(env, d, rows, true) == CpuRow(env, CpuRows(env, d, before, true), r, true)
  {
    assert rows[..|rows|-1] == before;
  }

  lemma {:induction false} CpuRestored(env: Env, d: map<string, Spec>, c: Catalog, names: seq<string>, q: string)
    returns (out: map<string, Spec>)
    requires Distinct(names) && SpecsTyped(d)
    requires forall i :: 0 <= i < |names| ==> names[i] in c.cpus && Plain(names[i]) && CanonicalSpec(c.cpus[names[i]])
    ensures CpuRows(env, d, CpuSheet(c, names), true) == out && CpuAt(out, d, c.cpus, names, q)
  {
    if names == [] {
      out := d;
    } else {
      var n := |names| - 1;
      var desc := names[n];
      LastIsNew(names);
      var before := CpuRestored(env, d, c, names[..n], q);
      var same := CpuRestored(env, d, c, names[..n], desc);
      CpuSheetStep(c, names);
      CpuRowsStep(env, d, CpuSheet(c, names), CpuSheet(c, names[..n]), CpuRowOf(desc, c.cpus[desc]));
      CpuRowApplied(env, before, desc, c.cpus[desc]);
      CpuStep(before, d, c.cpus, names[..n], desc, q);
      out := before[desc := if desc in before then Overlay(before[desc], c.cpus[desc]) else c.cpus[desc]];
    }
  }

  lemma CpuRowApplied(env: Env, cpus: map<string, Spec>, desc: string, spec: Spec)
    requires Plain(desc) && CanonicalSpec(spec) && (desc in cpus ==> Typed(cpus[desc]))
    ensures CpuRow(env, cpus, CpuRowOf(desc, spec), true)
            == cpus[desc := if desc in cpus then Overlay(cpus[desc], spec) else spec]
  {
    DescReadsBack(env, desc, spec);
    SpecCreated(env, desc, spec);
    if desc in cpus {
      SpecApplied(env, cpus[desc], desc, spec);
    }
  }

  lemma CpusRestored(env: Env, d: map<string, Spec>, c: Catalog, names: seq<string>)
    requires Enumerates(names, c.cpus.Keys) && SpecsTyped(d)
    requires forall k :: k in c.cpus ==> Plain(k) && CanonicalSpec(c.cpus[k])
    ensures CpuRows(env, d, CpuSheet(c, names), true) == MergedCpus(d, c.cpus)
  {
    var out := CpuRestored(env, d, c, names, "");
    forall q ensures CpuAt(out, d, c.cpus, names, q) {
      var same := CpuRestored(env, d, c, names, q);
    }
    CpusMerged(out, d, c.cpus, names);
  }

  lemma CpusMerged(out: map<string, Spec>, d: map<string, Spec>, cpus: map<string, Spec>, names: seq<string>)
    requires Enumerates(names, cpus.Keys) && forall q :: CpuAt(out, d, cpus, names, q)
    ensures out == MergedCpus(d, cpus)
  {
    forall q ensures (q in out <==> q in MergedCpus(d, cpus)) && (q in out ==> out[q] == MergedCpus(d, cpus)[q]) {
      assert CpuAt(out, d, cpus, names, q);
    }
  }

  lemma NicReadsBack(env: Env, nics: map<string, Nic>, desc: string, nic: Nic)
    requires Plain(desc) && Plain(nic.speed)
    ensures NicRow(env, nics, NicRowOf(desc, nic), true) == Ok(nics[desc := nic])
  {
    StripTrims(desc);
    StripTrims(nic.speed);
  }

  /** What the keys written so far have become. */
  ghost predicate MapAt<V(!new)>(out: map<string, V>, d: map<string, V>, c: map<string, V>, names: seq<string>,
                                 q: string) {
    && (q in out <==> q in d || (q in names && q in c))
    && (q in out ==> out[q] == if q in names && q in c then c[q] else d[q])
  }

  lemma MapStep<V(!new)>(out: map<string, V>, d: map<string, V>, c: map<string, V>, names: seq<string>, name: string,
                         q: string)
    requires MapAt(out, d, c, names, q) && name in c
    ensures MapAt(out[name := c[name]], d, c, names + [name], q)
  {
  }

  lemma MapMerged<V(!new)>(out: map<string, V>, d: map<string, V>, c: map<string, V>, names: seq<string>)
    requires Enumerates(names, c.Keys) && forall q :: MapAt(out, d, c, names, q)
    ensures out == d + c
  {
    forall q ensures (q in out <==> q in d + c) && (q in out ==> out[q] == (d + c)[q]) {
      assert MapAt(out, d, c, names, q);
    }
  }

  lemma NicSheetStep(c: Catalog, front: seq<string>, last: string)
    requires last in c.nics
    ensures NicSheet(c, front + [last]) == NicSheet(c, front) + [NicRowOf(last, c.nics[last])]
  {
  }

  lemma NicStep(env: Env, d: map<string, Nic>, rows: seq<Row>, before: seq<Row>, r: Row, out: map<string, Nic>)
    requires rows == before + [r] && NicRows(env, d, before, true) == Ok(out)
    ensures NicRows(env, d, rows, true) == NicRow(env, out, r, true)
  {
    assert rows[..|rows|-1] == before;
  }

  ghost predicate NicFits(c: Catalog, desc: string) {
    desc in c.nics && Plain(desc) && Plain(c.nics[desc].speed)
  }

  lemma LastNicRestored(env: Env, d: map<string, Nic>, c: Catalog, front: seq<string>, last: string,
                        before: map<string, Nic>)
    returns (out: map<string, Nic>)
    requires NicFits(c, last) && NicRows(env, d, NicSheet(c, front), true) == Ok(before)
    ensures NicRows(env, d, NicSheet(c, front + [last]), true) == Ok(out) && out == before[last := c.nics[last]]
  {
    NicReadsBack(env, before, last, c.nics[last]);
    NicSheetStep(c, front, last);
    NicStep(env, d, NicSheet(c, front + [last]), NicSheet(c, front), NicRowOf(last, c.nics[last]), before);
    out := before[last := c.nics[last]];
  }

  lemma {:induction false} NicRestored(env: Env, d: map<string, Nic>, c: Catalog, names: seq<string>, q: string)
    returns (out: map<string, Nic>)
    requires forall i :: 0 <= i < |names| ==> NicFits(c, names[i])
    ensures NicRows(env, d, NicSheet(c, names), true) == Ok(out) && MapAt(out, d, c.nics, names, q)
  {
    if names == [] {
      out := d;
    } else {
      var n := |names| - 1;
      var front, last := names[..n], names[n];
      assert names == front + [last];
      var before := NicRestored(env, d, c, front, q);
      out := LastNicRestored(env, d, c, front, last, before);
      MapStep(before, d, c.nics, front, last, q);
    }
  }

  lemma NicsRestored(env: Env, d: map<string, Nic>, c: Catalog, names: seq<string>)
    requires Enumerates(names, c.nics.Keys)
    requires forall k :: k in c.nics ==> Plain(k) && Plain(c.nics[k].speed)
    ensures NicRows(env, d, NicSheet(c, names), true) == Ok(d + c.nics)
  {
    var out := NicRestored(env, d, c, names, "");
    forall q ensures MapAt(out, d, c.nics, names, q) {
      var same := NicRestored(env, d, c, names, q);
    }
    MapMerged(out, d, c.nics, names);
  }

  lemma DriveRowReadsBack(env: Env, drives: set<Drive>, d: Drive)
    requires Plain(d.kind) && d.tb > 0.0
    ensures DriveRow(env, drives, DriveRowOf(d)) == Ok(drives + {d})
  {
    StripTrims(d.kind);
  }

  lemma {:induction false} DriveRestored(env: Env, d: set<Drive>, drives: seq<Drive>, q: Drive)
    requires forall i :: 0 <= i < |drives| ==> Plain(drives[i].kind) && drives[i].tb > 0.0
    ensures DriveRows(env, d, DriveSheet(drives)).Ok?
    ensures q in DriveRows(env, d, DriveSheet(drives)).value <==> q in d || q in drives
  {
    if drives != [] {
      var n := |drives| - 1;
      DriveRestored(env, d, drives[..n], q);
      assert DriveSheet(drives)[..n] == DriveSheet(drives[..n]);
      DriveRowReadsBack(env, DriveRows(env, d, DriveSheet(drives[..n])).value, drives[n]);
      assert drives == drives[..n] + [drives[n]];
    }
  }

  lemma DrivesRestored(env: Env, d: set<Drive>, c: Catalog, drives: seq<Drive>)
    requires Enumerates(drives, c.drives) && forall x :: x in c.drives ==> Plain(x.kind) && x.tb > 0.0
    ensures DriveRows(env, d, DriveSheet(drives)) == Ok(d + c.drives)
  {
    DriveRestored(env, d, drives, Drive("", 0.0));
    var out := DriveRows(env, d, DriveSheet(drives)).value;
    forall q ensures q in out <==> q in d + c.drives {
      DriveRestored(env, d, drives, q);
    }
    assert out == d + c.drives;
  }

  lemma {:induction false} IopsRestored(env: Env, d: map<string, int>, c: Catalog, names: seq<string>, q: string)
    requires forall i :: 0 <= i < |names| ==> names[i] in c.iops && Plain(names[i])
    ensures MapAt(IopsRows(env, d, IopsSheet(c, names), true), d, c.iops, names, q)
  {
    if names != [] {
      var n := |names| - 1;
      IopsRestored(env, d, c, names[..n], q);
      assert IopsSheet(c, names)[..n] == IopsSheet(c, names[..n]);
      var out := IopsRows(env, d, IopsSheet(c, names[..n]), true);
      IopsReadsBack(env, out, names[n], c.iops[names[n]]);
      MapStep(out, d, c.iops, names[..n], names[n], q);
      assert names == names[..n] + [names[n]];
    }
  }

  lemma IopsReadsBack(env: Env, iops: map<string, int>, kind: string, value: int)
    requires Plain(kind)
    ensures IopsRow(env, iops, map[DriveType := Write(kind), IopsValue := Whole(value)], true) == iops[kind := value]
  {
    StripTrims(kind);
  }

  lemma SettingReadsBack(env: Env, settings: map<string, real>, key: string, value: real)
    requires Plain(key)
    ensures SettingRow(env, settings, map[Key := Write(key), Value := Dec(value)], true) == settings[key := value]
  {
    StripTrims(key);
  }

  lemma {:induction false} SettingRestored(env: Env, d: map<string, real>, c: Catalog, names: seq<string>, q: string)
    requires forall i :: 0 <= i < |names| ==> names[i] in c.settings && Plain(names[i])
    ensures MapAt(SettingRows(env, d, SettingSheet(c, names), true), d, c.settings, names, q)
  {
    if names != [] {
      var n := |names| - 1;
      SettingRestored(env, d, c, names[..n], q);
      assert SettingSheet(c, names)[..n] == SettingSheet(c, names[..n]);
      var out := SettingRows(env, d, SettingSheet(c, names[..n]), true);
      SettingReadsBack(env, out, names[n], c.settings[names[n]]);
      MapStep(out, d, c.settings, names[..n], names[n], q);
      assert names == names[..n] + [names[n]];
    }
  }

  lemma ConfigRestored(env: Env, d: Catalog, c: Catalog, o: Order)
    requires Canonical(env, c) && Lists(o, c)
    ensures IopsRows(env, d.iops, IopsSheet(c, o.iops), true) == d.iops + c.iops
    ensures SettingRows(env, d.settings, SettingSheet(c, o.settings), true) == d.settings + c.settings
  {
    var iops := IopsRows(env, d.iops, IopsSheet(c, o.iops), true);
    var settings := SettingRows(env, d.settings, SettingSheet(c, o.settings), true);
    forall q ensures MapAt(iops, d.iops, c.iops, o.iops, q) {
      IopsRestored(env, d.iops, c, o.iops, q);
    }
    forall q ensures MapAt(settings, d.settings, c.settings, o.settings, q) {
      SettingRestored(env, d.settings, c, o.settings, q);
    }
    MapMerged(iops, d.iops, c.iops, o.iops);
    MapMerged(settings, d.settings, c.settings, o.settings);
  }

  // ── drives of a model ─────────────────────────────────────────────────────

  function SizesOf(data: StorageData, kind: string): seq<real> {
    match kind
    case "HDD" => data.hddTb
    case "SSD" => data.ssdTb
    case _ => data.nvmeTb
  }

  lemma KindLower(d: Drive)
    requires KnownKind(d)
    ensures Lower(d.kind) == if d.kind == "HDD" then "hdd" else if d.kind == "SSD" then "ssd" else "nvme"
  {
    LowerKind(d.kind);
  }

  /** The sizes gathered under each kind are exactly those listed, each once. */
  ghost predicate Gathered(data: StorageData, drives: seq<Drive>) {
    && Distinct(data.hddTb) && Distinct(data.ssdTb) && Distinct(data.nvmeTb)
    && forall d: Drive :: d in drives <==> d in LabelledDrives(data)
  }

  lemma GatherOne(data: StorageData, before: seq<Drive>, d: Drive)
    requires Gathered(data, before) && KnownKind(d) && d !in before
    ensures Gathered(AddDrive(data, d), before + [d])
  {
    KindLower(d);
    var after := AddDrive(data, d);
    ListedSize(data, d);
    LabelledPush(d.kind, SizesOf(data, d.kind), d.tb);
    assert LabelledDrives(after) == LabelledDrives(data) + {d};
  }

  lemma ListedSize(data: StorageData, d: Drive)
    requires KnownKind(d)
    ensures d in LabelledDrives(data) <==> d.tb in SizesOf(data, d.kind)
  {
    if d.tb in SizesOf(data, d.kind) {
      var i :| 0 <= i < |SizesOf(data, d.kind)| && SizesOf(data, d.kind)[i] == d.tb;
      assert d in Labelled(d.kind, SizesOf(data, d.kind));
    }
  }

  lemma LabelledPush(kind: string, sizes: seq<real>, tb: real)
    ensures Labelled(kind, sizes + [tb]) == Labelled(kind, sizes) + {Drive(kind, tb)}
  {
    var more := sizes + [tb];
    forall x ensures x in Labelled(kind, more) <==> x in Labelled(kind, sizes) + {Drive(kind, tb)} {
      if x in Labelled(kind, sizes) {
        var i :| 0 <= i < |sizes| && x == Drive(kind, sizes[i]);
        assert more[i] == sizes[i];
      }
      assert more[|sizes|] == tb;
    }
  }

  lemma {:induction false} DrivesGathered(data: StorageData, drives: seq<Drive>)
    requires Distinct(drives) && KnownKinds(drives)
    requires data.hddTb == [] && data.ssdTb == [] && data.nvmeTb == []
    ensures Gathered(AddDrives(data, drives), drives)
    ensures AddDrives(data, drives).(hddTb := [], ssdTb := [], nvmeTb := []) == data
  {
    if drives != [] {
      LastIsNew(drives);
      var front, last := drives[..|drives|-1], drives[|drives|-1];
      DrivesGathered(data, front);
      GatherOne(AddDrives(data, front), front, last);
      SizesOnly(AddDrives(data, front), last);
    }
  }

  lemma SizesOnly(data: StorageData, d: Drive)
    requires KnownKind(d)
    ensures AddDrive(data, d).(hddTb := [], ssdTb := [], nvmeTb := []) == data.(hddTb := [], ssdTb := [], nvmeTb := [])
  {
    KindLower(d);
  }

  lemma StorageRebuilt(c: Catalog, s: Storage, drives: seq<Drive>)
    requires CanonicalStorage(c, s) && Enumerates(drives, s.drives)
    ensures BuildStorage(AddDrives(DataFor(s), drives)) == Ok(s)
  {
    DrivesGathered(DataFor(s), drives);
    var data := AddDrives(DataFor(s), drives);
    assert LabelledDrives(data) == s.drives;
  }

  // ── one model ─────────────────────────────────────────────────────────────

  /** The workbook's option lists say of this model what the backed-up catalog does. */
  ghost predicate OptionsAre(env: Env, options: Options, c: Catalog, o: Order, name: string)
    requires name in c.models && name in o.ram && name in o.modelDrives
  {
    && For(options.cpus, name) == CpuOptionsFor(c, c.models[name].cpus)
    && For(options.nics, name) == NicOptionsFor(env, c, c.models[name].nics)
    && For(options.ram, name) == o.ram[name]
    && For(options.drives, name) == o.modelDrives[name]
  }

  /** Options whose catalog rows are there create none. */
  lemma {:induction false} NoCpuCreated(cpus: map<string, Spec>, options: seq<CpuOption>)
    requires forall i :: 0 <= i < |options| ==> BaseDesc(options[i].desc) in cpus
    ensures WithCpus(cpus, options) == cpus
  {
    if options != [] {
      NoCpuCreated(cpus, options[..|options|-1]);
    }
  }

  lemma {:induction false} NoNicCreated(nics: map<string, Nic>, options: seq<NicOption>)
    requires forall i :: 0 <= i < |options| ==> BaseDesc(options[i].desc) in nics
    ensures WithNics(nics, options) == nics
  {
    if options != [] {
      NoNicCreated(nics, options[..|options|-1]);
    }
  }

  /** The links come back as they were, and find their catalog rows. */
  lemma CpusLinked(w: map<string, Spec>, c: Catalog, links: seq<Link>)
    requires CanonicalLinks(c, links) && c.cpus.Keys <= w.Keys
    ensures CpuLinks(CpuOptionsFor(c, links)) == links && WithCpus(w, CpuOptionsFor(c, links)) == w
  {
    forall i | 0 <= i < |links|
      ensures BaseDesc(CpuOptionsFor(c, links)[i].desc) == links[i].desc && links[i].desc in w
    {
      assert links[i].desc in c.cpus.Keys;
    }
    NoCpuCreated(w, CpuOptionsFor(c, links));
  }

  lemma NicsLinked(env: Env, w: map<string, Nic>, c: Catalog, links: seq<Link>)
    requires CanonicalNicLinks(c, links) && c.nics.Keys <= w.Keys
    ensures NicLinks(NicOptionsFor(env, c, links)) == links && WithNics(w, NicOptionsFor(env, c, links)) == w
  {
    forall i | 0 <= i < |links|
      ensures BaseDesc(NicOptionsFor(env, c, links)[i].desc) == links[i].desc && links[i].desc in w
    {
      assert links[i].desc in c.nics.Keys;
    }
    NoNicCreated(w, NicOptionsFor(env, c, links));
  }

  lemma BuiltFrom(env: Env, w: Catalog, name: string, r: Row, options: Options, data: StorageData, m: Model)
    requires ModelFields(env, name, r) == Ok(NoOptions(m))
    requires CpuLinks(For(options.cpus, name)) == m.cpus && Distinct(m.cpus)
    requires NicLinks(For(options.nics, name)) == m.nics && Distinct(m.nics)
    requires multiset(For(options.ram, name)) == m.ram
    requires WithCpus(w.cpus, For(options.cpus, name)) == w.cpus && WithNics(w.nics, For(options.nics, name)) == w.nics
    requires if m.storage.Some?
             then data != NO_STORAGE && BuildStorage(data) == Ok(m.storage.value) && m.storage.value.drives <= w.drives
             else data == NO_STORAGE
    ensures BuildModel(env, w, name, r, options, data) == Ok(w.(models := w.models[name := m]))
  {
    if m.storage.Some? {
      assert w.drives + m.storage.value.drives == w.drives;
    }
    assert NoOptions(m).(cpus := m.cpus, ram := m.ram, storage := m.storage, nics := m.nics) == m;
  }

  lemma ModelBuilt(env: Env, w: Catalog, options: Options, c: Catalog, o: Order, name: string, data: StorageData)
    requires name in c.models && CanonicalModel(env, c, name, c.models[name])
    requires name in o.ram && name in o.modelDrives && multiset(o.ram[name]) == c.models[name].ram
    requires OptionsAre(env, options, c, o, name)
    requires c.cpus.Keys <= w.cpus.Keys && c.nics.Keys <= w.nics.Keys && c.drives <= w.drives
    requires var s := c.models[name].storage;
             if s.Some? then data != NO_STORAGE && BuildStorage(data) == Ok(s.value) else data == NO_STORAGE
    ensures BuildModel(env, w, name, ModelRowOf(name, c.models[name]), options, data)
            == Ok(w.(models := w.models[name := c.models[name]]))
  {
    var m := c.models[name];
    ModelRowExactly(env, name, m);
    CpusLinked(w.cpus, c, m.cpus);
    NicsLinked(env, w.nics, c, m.nics);
    BuiltFrom(env, w, name, ModelRowOf(name, m), options, data, m);
  }

  /** The storage data the rows give a model not seen before. */
  ghost predicate StorIs(stor: map<string, StorageData>, c: Catalog, name: string)
    requires name in c.models
  {
    && (name in stor <==> c.models[name].storage.Some?)
    && (name in stor ==> stor[name] == DataFor(c.models[name].storage.value))
  }

  lemma ModelRestored(env: Env, w: Work, options: Options, c: Catalog, o: Order, name: string)
    requires name in c.models && CanonicalModel(env, c, name, c.models[name]) && ListsModel(o, name, c.models[name])
    requires OptionsAre(env, options, c, o, name) && StorIs(w.stor, c, name)
    requires c.cpus.Keys <= w.catalog.cpus.Keys && c.nics.Keys <= w.catalog.nics.Keys && c.drives <= w.catalog.drives
    ensures var r := ModelRow(env, w, options, ModelRowOf(name, c.models[name]), true);
            && r.Ok? && r.value.catalog == w.catalog.(models := w.catalog.models[name := c.models[name]])
            && r.value.stor == if name in w.stor then w.stor[name := StorageFor(w.stor, options, name)] else w.stor
  {
    var m := c.models[name];
    NameReadsBack(env, name, m);
    StorageRead(w.stor, options, c, o, name);
    ModelBuilt(env, w.catalog, options, c, o, name, StorageFor(w.stor, options, name));
  }

  lemma StorageRead(stor: map<string, StorageData>, options: Options, c: Catalog, o: Order, name: string)
    requires name in c.models && ListsModel(o, name, c.models[name]) && StorIs(stor, c, name)
    requires c.models[name].storage.Some? ==> CanonicalStorage(c, c.models[name].storage.value)
    requires For(options.drives, name) == o.modelDrives[name]
    ensures var s, data := c.models[name].storage, StorageFor(stor, options, name);
            if s.Some? then data != NO_STORAGE && BuildStorage(data) == Ok(s.value) else data == NO_STORAGE
  {
    var s, drives := c.models[name].storage, o.modelDrives[name];
    if s.Some? {
      StorageRebuilt(c, s.value, drives);
      DrivesGathered(DataFor(s.value), drives);
      assert StorageFor(stor, options, name).kind.Some?;
    }
  }

  lemma NameReadsBack(env: Env, name: string, m: Model)
    requires Plain(name)
    ensures TextOf(env, ModelRowOf(name, m), Name) == name
  {
    RowCarries(name, m);
    StripTrims(name);
  }

  // ── all models ────────────────────────────────────────────────────────────

  /** The models named so far are the backup's, the rest the catalog's own. */
  ghost predicate ModelAt(w: Work, start: Work, c: Catalog, names: seq<string>, q: string) {
    && w.catalog.(models := map[]) == start.catalog.(models := map[])
    && (q in w.catalog.models <==> q in start.catalog.models || (q in names && q in c.models))
    && (q in w.catalog.models ==>
          w.catalog.models[q] == if q in names && q in c.models then c.models[q] else start.catalog.models[q])
    && (q !in names ==> (q in w.stor <==> q in start.stor) && (q in w.stor ==> w.stor[q] == start.stor[q]))
  }

  lemma ModelStep(w: Work, after: Work, start: Work, c: Catalog, names: seq<string>, name: string, data: StorageData,
                  q: string)
    requires ModelAt(w, start, c, names, q) && name in c.models
    requires after.catalog == w.catalog.(models := w.catalog.models[name := c.models[name]])
    requires after.stor == if name in w.stor then w.stor[name := data] else w.stor
    ensures ModelAt(after, start, c, names + [name], q)
  {
  }

  ghost predicate Ready(env: Env, start: Work, options: Options, c: Catalog, o: Order) {
    && c.cpus.Keys <= start.catalog.cpus.Keys && c.nics.Keys <= start.catalog.nics.Keys
    && c.drives <= start.catalog.drives
    && forall name :: name in c.models ==> ModelReady(env, start, options, c, o, name)
  }

  ghost predicate ModelReady(env: Env, start: Work, options: Options, c: Catalog, o: Order, name: string)
    requires name in c.models
  {
    && CanonicalModel(env, c, name, c.models[name]) && ListsModel(o, name, c.models[name])
    && OptionsAre(env, options, c, o, name) && StorIs(start.stor, c, name)
  }

  lemma ModelRowsStep(env: Env, start: Work, options: Options, rows: seq<Row>, before: seq<Row>, r: Row, w: Work)
    requires rows == before + [r] && ModelRows(env, start, options, before, true) == Ok(w)
    ensures ModelRows(env, start, options, rows, true) == ModelRow(env, w, options, r, true)
  {
    assert rows[..|rows|-1] == before;
  }

  lemma ModelSheetStep(c: Catalog, names: seq<string>)
    requires names != [] && forall i :: 0 <= i < |names| ==> names[i] in c.models
    ensures ModelSheet(c, names)
            == ModelSheet(c, names[..|names|-1]) + [ModelRowOf(names[|names|-1], c.models[names[|names|-1]])]
  {
    var n := |names| - 1;
    var sheet, front := ModelSheet(c, names), ModelSheet(c, names[..n]);
    assert |sheet| == |front| + 1;
    forall i | 0 <= i < n ensures sheet[i] == front[i] {
      assert names[..n][i] == names[i];
    }
    assert sheet == sheet[..n] + [sheet[n]];
  }

  lemma {:induction false} ModelsRestored(env: Env, start: Work, options: Options, c: Catalog, o: Order,
                                          names: seq<string>, q: string)
    returns (w: Work)
    requires Distinct(names) && (forall i :: 0 <= i < |names| ==> names[i] in c.models)
    requires Ready(env, start, options, c, o)
    ensures ModelRows(env, start, options, ModelSheet(c, names), true) == Ok(w)
    ensures ModelAt(w, start, c, names, q)
  {
    if names == [] {
      w := start;
    } else {
      var n := |names| - 1;
      LastIsNew(names);
      var before := ModelsRestored(env, start, options, c, o, names[..n], q);
      var same := ModelsRestored(env, start, options, c, o, names[..n], names[n]);
      w := OneMore(env, before, start, options, c, o, names[..n], names[n], q);
      ModelSheetStep(c, names);
      ModelRowsStep(env, start, options, ModelSheet(c, names), ModelSheet(c, names[..n]),
                    ModelRowOf(names[n], c.models[names[n]]), before);
    }
  }

  lemma OneMore(env: Env, w: Work, start: Work, options: Options, c: Catalog, o: Order, names: seq<string>,
                name: string, q: string)
    returns (after: Work)
    requires ModelAt(w, start, c, names, q) && ModelAt(w, start, c, names, name) && name !in names && name in c.models
    requires Ready(env, start, options, c, o)
    ensures ModelRow(env, w, options, ModelRowOf(name, c.models[name]), true) == Ok(after)
    ensures ModelAt(after, start, c, names + [name], q)
  {
    assert ModelReady(env, start, options, c, o, name);
    StillReady(env, w, start, options, c, o, names, name);
    ModelRestored(env, w, options, c, o, name);
    after := ModelRow(env, w, options, ModelRowOf(name, c.models[name]), true).value;
    ModelStep(w, after, start, c, names, name, StorageFor(w.stor, options, name), q);
  }

  lemma StillReady(env: Env, w: Work, start: Work, options: Options, c: Catalog, o: Order, names: seq<string>,
                   name: string)
    requires ModelAt(w, start, c, names, name) && name !in names && name in c.models
    requires ModelReady(env, start, options, c, o, name)
    requires Ready(env, start, options, c, o)
    ensures StorIs(w.stor, c, name)
    ensures c.cpus.Keys <= w.catalog.cpus.Keys && c.nics.Keys <= w.catalog.nics.Keys && c.drives <= w.catalog.drives
  {
  }

  // ── the whole backup ──────────────────────────────────────────────────────

  /** Every model of the catalog, with its options listed. */
  ghost predicate ModelsListed(c: Catalog, o: Order) {
    && Distinct(o.models) && (forall name :: name in c.models ==> name in o.models)
    && forall i :: 0 <= i < |o.models| ==>
         o.models[i] in c.models && o.models[i] in o.ram && o.models[i] in o.modelDrives
  }

  /** A workbook with the backup's option sheets. */
  ghost predicate HasOptionSheets(wb: Workbook, c: Catalog, o: Order)
    requires ModelsListed(c, o)
  {
    && RowsOr(wb, ModelCpus, OldCpus) == ModelCpuSheet(c, o.models)
    && RowsOr(wb, ModelRam, OldRam) == ModelRamSheet(o, o.models)
    && RowsOr(wb, ModelDrives, OldDrives) == ModelDriveSheet(o, o.models)
    && RowsOr(wb, ModelNics, OldNics) == ModelNicSheet(c, o.models)
    && RowsOr(wb, ModelStorage, OldStorage) == ModelStorageSheet(c, o.models)
  }

  /** Every listed model is canonical, with drives of known kinds. */
  ghost predicate ModelsFit(env: Env, c: Catalog, o: Order)
    requires ModelsListed(c, o)
  {
    forall i :: 0 <= i < |o.models| ==>
      CanonicalModel(env, c, o.models[i], c.models[o.models[i]]) && KnownKinds(o.modelDrives[o.models[i]])
  }

  lemma ModelFit(env: Env, c: Catalog, o: Order)
    requires ModelsListed(c, o) && ModelsFit(env, c, o)
    ensures forall i :: 0 <= i < |o.models| ==>
              && Plain(o.models[i]) && CanonicalLinks(c, c.models[o.models[i]].cpus)
              && CanonicalNicLinks(c, c.models[o.models[i]].nics)
              && (c.models[o.models[i]].storage.Some? ==> CanonicalStorage(c, c.models[o.models[i]].storage.value))
              && KnownKinds(o.modelDrives[o.models[i]])
  {
  }

  lemma CpusFiled(env: Env, c: Catalog, o: Order, name: string)
    requires ModelsListed(c, o) && ModelsFit(env, c, o)
    ensures Items(CpuParsed(env, ModelCpuSheet(c, o.models))).Ok?
    ensures name in c.models ==>
              For(Items(CpuParsed(env, ModelCpuSheet(c, o.models))).value, name) == CpuOptionsFor(c, c.models[name].cpus)
  {
    ModelFit(env, c, o);
    CpuSheetBlocks(env, c, o.models);
    BlocksFiled(o.models, AllCpuOptions(c), name);
  }

  lemma NicsFiled(env: Env, c: Catalog, o: Order, name: string)
    requires ModelsListed(c, o) && ModelsFit(env, c, o)
    ensures Items(NicParsed(env, ModelNicSheet(c, o.models))).Ok?
    ensures name in c.models ==>
              For(Items(NicParsed(env, ModelNicSheet(c, o.models))).value, name) == NicOptionsFor(env, c, c.models[name].nics)
  {
    ModelFit(env, c, o);
    NicSheetBlocks(env, c, o.models);
    BlocksFiled(o.models, AllNicOptions(env, c), name);
  }

  lemma RamFiled(env: Env, c: Catalog, o: Order, name: string)
    requires ModelsListed(c, o) && ModelsFit(env, c, o)
    ensures Items(RamParsed(env, ModelRamSheet(o, o.models))).Ok?
    ensures name in c.models ==> For(Items(RamParsed(env, ModelRamSheet(o, o.models))).value, name) == o.ram[name]
  {
    ModelFit(env, c, o);
    RamSheetBlocks(env, o, o.models);
    BlocksFiled(o.models, o.ram, name);
  }

  lemma DrivesFiled(env: Env, c: Catalog, o: Order, name: string)
    requires ModelsListed(c, o) && ModelsFit(env, c, o)
    ensures Items(DriveParsed(env, ModelDriveSheet(o, o.models))).Ok?
    ensures name in c.models ==>
              For(Items(DriveParsed(env, ModelDriveSheet(o, o.models))).value, name) == o.modelDrives[name]
  {
    ModelFit(env, c, o);
    DriveSheetBlocks(env, o, o.models);
    BlocksFiled(o.models, o.modelDrives, name);
  }

  lemma OptionsRead(env: Env, wb: Workbook, c: Catalog, o: Order, name: string)
    requires ModelsListed(c, o) && ModelsFit(env, c, o) && HasOptionSheets(wb, c, o)
    ensures OptionsOf(env, wb).Ok?
    ensures name in c.models ==>
              name in o.ram && name in o.modelDrives && OptionsAre(env, OptionsOf(env, wb).value, c, o, name)
  {
    CpusFiled(env, c, o, name);
    NicsFiled(env, c, o, name);
    RamFiled(env, c, o, name);
    DrivesFiled(env, c, o, name);
  }

  lemma StorRead(env: Env, wb: Workbook, c: Catalog, o: Order, name: string)
    requires ModelsListed(c, o) && ModelsFit(env, c, o) && HasOptionSheets(wb, c, o)
    ensures StorageMap(env, RowsOr(wb, ModelStorage, OldStorage)).Ok?
    ensures name in c.models ==> StorIs(StorageMap(env, RowsOr(wb, ModelStorage, OldStorage)).value, c, name)
  {
    ModelFit(env, c, o);
    StorageFiled(env, c, o.models, name);
  }

  lemma NoOldSheets(c: Catalog, o: Order)
    requires Lists(o, c)
    ensures ModelsListed(c, o) && HasOptionSheets(Export(c, o), c, o)
  {
    ListedModels(c, o);
    var wb := Export(c, o);
    NoOlder(wb, ModelCpus, OldCpus);
    NoOlder(wb, ModelRam, OldRam);
    NoOlder(wb, ModelDrives, OldDrives);
    NoOlder(wb, ModelNics, OldNics);
    NoOlder(wb, ModelStorage, OldStorage);
  }

  lemma NoOlder(wb: Workbook, s: Sheet, older: Sheet)
    requires s in wb && older !in wb
    ensures RowsOr(wb, s, older) == wb[s]
  {
  }

  lemma ModelsPlain(env: Env, c: Catalog, o: Order)
    requires Canonical(env, c) && Lists(o, c) && ModelsListed(c, o)
    ensures ModelsFit(env, c, o)
  {
    forall i | 0 <= i < |o.models|
      ensures CanonicalModel(env, c, o.models[i], c.models[o.models[i]]) && KnownKinds(o.modelDrives[o.models[i]])
    {
      assert o.models[i] in c.models;
      assert ListsModel(o, o.models[i], c.models[o.models[i]]);
    }
  }

  lemma ModelsImported(env: Env, d: Catalog, wb: Workbook, c: Catalog, o: Order)
    requires Canonical(env, c) && Lists(o, c)
    requires ModelsListed(c, o) && HasOptionSheets(wb, c, o) && Rows(wb, Models) == ModelSheet(c, o.models)
    requires c.cpus.Keys <= d.cpus.Keys && c.nics.Keys <= d.nics.Keys && c.drives <= d.drives
    ensures ImportModels(env, d, wb, true) == Ok(d.(models := d.models + c.models))
  {
    if o.models == [] {
      NoModels(c, o);
      assert d.models + c.models == d.models;
    } else {
      ModelsPlain(env, c, o);
      AllReady(env, d, wb, c, o);
      ModelRowsImported(env, d, wb, c, o);
    }
  }

  lemma ModelRowsImported(env: Env, d: Catalog, wb: Workbook, c: Catalog, o: Order)
    requires ModelsListed(c, o) && o.models != [] && Rows(wb, Models) == ModelSheet(c, o.models)
    requires OptionsOf(env, wb).Ok? && StorageMap(env, RowsOr(wb, ModelStorage, OldStorage)).Ok?
    requires Ready(env, Work(d, StorageMap(env, RowsOr(wb, ModelStorage, OldStorage)).value), OptionsOf(env, wb).value, c, o)
    ensures ImportModels(env, d, wb, true) == Ok(d.(models := d.models + c.models))
  {
    AllModelsRestored(env, Work(d, StorageMap(env, RowsOr(wb, ModelStorage, OldStorage)).value),
                      OptionsOf(env, wb).value, c, o);
  }

  lemma AllReady(env: Env, d: Catalog, wb: Workbook, c: Catalog, o: Order)
    requires Canonical(env, c) && Lists(o, c) && ModelsListed(c, o) && ModelsFit(env, c, o) && HasOptionSheets(wb, c, o)
    requires c.cpus.Keys <= d.cpus.Keys && c.nics.Keys <= d.nics.Keys && c.drives <= d.drives
    ensures OptionsOf(env, wb).Ok? && StorageMap(env, RowsOr(wb, ModelStorage, OldStorage)).Ok?
    ensures Ready(env, Work(d, StorageMap(env, RowsOr(wb, ModelStorage, OldStorage)).value), OptionsOf(env, wb).value, c, o)
  {
    OptionsRead(env, wb, c, o, "");
    StorRead(env, wb, c, o, "");
    var options, stor := OptionsOf(env, wb).value, StorageMap(env, RowsOr(wb, ModelStorage, OldStorage)).value;
    forall name | name in c.models ensures ModelReady(env, Work(d, stor), options, c, o, name) {
      OptionsRead(env, wb, c, o, name);
      StorRead(env, wb, c, o, name);
      assert CanonicalModel(env, c, name, c.models[name]) && ListsModel(o, name, c.models[name]);
    }
  }

  lemma NoModels(c: Catalog, o: Order)
    requires ModelsListed(c, o) && o.models == []
    ensures c.models == map[]
  {
    assert forall k :: k in c.models.Keys ==> k in o.models;
    assert c.models.Keys == {};
  }

  lemma AllModelsRestored(env: Env, start: Work, options: Options, c: Catalog, o: Order)
    requires ModelsListed(c, o) && Ready(env, start, options, c, o)
    ensures var r := ModelRows(env, start, options, ModelSheet(c, o.models), true);
            r.Ok? && r.value.catalog == start.catalog.(models := start.catalog.models + c.models)
  {
    var w := ModelsRestored(env, start, options, c, o, o.models, "");
    forall q ensures ModelAt(w, start, c, o.models, q) {
      var same := ModelsRestored(env, start, options, c, o, o.models, q);
    }
    ModelsMerged(w, start, c, o);
  }

  lemma ModelsMerged(w: Work, start: Work, c: Catalog, o: Order)
    requires ModelsListed(c, o) && forall q :: ModelAt(w, start, c, o.models, q)
    ensures w.catalog == start.catalog.(models := start.catalog.models + c.models)
  {
    forall q ensures (q in w.catalog.models <==> q in start.catalog.models + c.models)
                     && (q in w.catalog.models ==> w.catalog.models[q] == (start.catalog.models + c.models)[q])
    {
      assert ModelAt(w, start, c, o.models, q);
    }
    assert ModelAt(w, start, c, o.models, "");
    assert w.catalog.models == start.catalog.models + c.models;
    assert w.catalog == w.catalog.(models := map[]).(models := w.catalog.models);
  }

  lemma PartsRestored(env: Env, d: Catalog, wb: Workbook, c: Catalog, o: Order)
    requires Canonical(env, c) && Lists(o, c) && SpecsTyped(d.cpus)
    requires Rows(wb, Cpus) == CpuSheet(c, o.cpus) && Rows(wb, Nics) == NicSheet(c, o.nics)
    requires Rows(wb, Drives) == DriveSheet(o.drives)
    ensures ImportParts(env, d, wb, true)
            == Ok(d.(cpus := MergedCpus(d.cpus, c.cpus), nics := d.nics + c.nics, drives := d.drives + c.drives))
  {
    CpusRestored(env, d.cpus, c, o.cpus);
    NicsRestored(env, d.nics, c, o.nics);
    DrivesRestored(env, d.drives, c, o.drives);
  }

  lemma SheetsExported(c: Catalog, o: Order)
    requires Lists(o, c)
    ensures var wb := Export(c, o);
            && Rows(wb, Cpus) == CpuSheet(c, o.cpus) && Rows(wb, Nics) == NicSheet(c, o.nics)
            && Rows(wb, Drives) == DriveSheet(o.drives)
            && (forall i :: 0 <= i < |o.models| ==> o.models[i] in c.models)
            && Rows(wb, Models) == ModelSheet(c, o.models)
            && Rows(wb, DriveIops) == IopsSheet(c, o.iops) && Rows(wb, Settings) == SettingSheet(c, o.settings)
  {
  }

  /** A backup with nothing in it has no rows to recognise, and merging it changes nothing. */
  lemma NothingBackedUp(c: Catalog, o: Order, d: Catalog)
    requires Lists(o, c) && !Recognised(Export(c, o))
    ensures Merged(d, c) == d
  {
    SheetsExported(c, o);
    ListedModels(c, o);
    assert |ModelSheet(c, o.models)| == |o.models|;
    NothingListed(o.cpus, c.cpus.Keys);
    NothingListed(o.nics, c.nics.Keys);
    NothingListed(o.models, c.models.Keys);
    NothingListed(o.iops, c.iops.Keys);
    NothingListed(o.settings, c.settings.Keys);
    NothingListed(o.drives, c.drives);
    assert MergedCpus(d.cpus, c.cpus) == d.cpus;
    assert d.nics + c.nics == d.nics && d.models + c.models == d.models;
    assert d.iops + c.iops == d.iops && d.settings + c.settings == d.settings;
  }

  lemma NothingListed<K>(list: seq<K>, keys: set<K>)
    requires list == [] && forall k :: k in list <==> k in keys
    ensures keys == {}
  {
  }

  /** Restoring a canonical backup over any catalog merges it in: the backup wins wherever it has a value. */
  lemma RestoreMerges(env: Env, d: Catalog, c: Catalog, o: Order)
    requires Canonical(env, c) && Lists(o, c) && SpecsTyped(d.cpus)
    ensures After(env, d, Export(c, o), true) == Merged(d, c)
  {
    var wb := Export(c, o);
    if Recognised(wb) {
      SheetsExported(c, o);
      NoOldSheets(c, o);
      PartsRestored(env, d, wb, c, o);
      var parts := ImportParts(env, d, wb, true).value;
      ModelsImported(env, parts, wb, c, o);
      ConfigRestored(env, d, c, o);
    } else {
      NothingBackedUp(c, o, d);
    }
  }

  /** Into an empty database the backup restores the very catalog it was taken from. */
  lemma RoundTrip(env: Env, c: Catalog, o: Order)
    requires Canonical(env, c) && Lists(o, c)
    ensures After(env, EMPTY_CATALOG, Export(c, o), true) == c
  {
    RestoreMerges(env, EMPTY_CATALOG, c, o);
    MergedOverNothing(c);
  }

  lemma MergedOverNothing(c: Catalog)
    ensures Merged(EMPTY_CATALOG, c) == c
  {
    assert MergedCpus(map[], c.cpus) == c.cpus;
    assert map[] + c.nics == c.nics && map[] + c.models == c.models && map[] + c.iops == c.iops;
    assert map[] + c.settings == c.settings;
  }

  /** Restored over the catalog it was taken from, the backup changes nothing. */
  lemma RestoringOverItself(env: Env, c: Catalog, o: Order)
    requires Canonical(env, c) && Lists(o, c)
    ensures After(env, c, Export(c, o), true) == c
  {
    forall k | k in c.cpus ensures Typed(c.cpus[k]) {
      assert CanonicalSpec(c.cpus[k]);
    }
    RestoreMerges(env, c, c, o);
    MergedOverItself(c);
  }

  lemma MergedOverItself(c: Catalog)
    ensures Merged(c, c) == c
  {
    forall k | k in c.cpus ensures Overlay(c.cpus[k], c.cpus[k]) == c.cpus[k] {
    }
    assert MergedCpus(c.cpus, c.cpus) == c.cpus;
    assert c.nics + c.nics == c.nics && c.models + c.models == c.models && c.iops + c.iops == c.iops;
    assert c.settings + c.settings == c.settings;
  }

  /** A restore never fails on a canonical backup that holds anything. */
  lemma RestoreSucceeds(env: Env, d: Catalog, c: Catalog, o: Order)
    requires Canonical(env, c) && Lists(o, c) && SpecsTyped(d.cpus)
    ensures Import(env, d, Export(c, o), true).Ok? <==> c != EMPTY_CATALOG
  {
    var wb := Export(c, o);
    SheetsExported(c, o);
    if Recognised(wb) {
      NoOldSheets(c, o);
      PartsRestored(env, d, wb, c, o);
      ModelsImported(env, ImportParts(env, d, wb, true).value, wb, c, o);
      ListedModels(c, o);
      SomethingListed(c, o);
    } else {
      NothingBackedUp(c, o, EMPTY_CATALOG);
      assert Merged(EMPTY_CATALOG, c) == EMPTY_CATALOG;
      NothingMerged(c);
    }
  }

  lemma SomethingListed(c: Catalog, o: Order)
    requires Lists(o, c) && Recognised(Export(c, o))
    ensures c != EMPTY_CATALOG
  {
    SheetsExported(c, o);
    ListedModels(c, o);
    assert |ModelSheet(c, o.models)| == |o.models|;
    if o.cpus != [] {
      SomeKey(o.cpus, c.cpus.Keys);
    } else if o.nics != [] {
      SomeKey(o.nics, c.nics.Keys);
    } else if o.models != [] {
      SomeKey(o.models, c.models.Keys);
    } else if o.iops != [] {
      SomeKey(o.iops, c.iops.Keys);
    } else if o.settings != [] {
      SomeKey(o.settings, c.settings.Keys);
    } else {
      SomeKey(o.drives, c.drives);
    }
  }

  lemma SomeKey<K>(list: seq<K>, keys: set<K>)
    requires list != [] && forall k :: k in list ==> k in keys
    ensures keys != {}
  {
    assert list[0] in list;
  }

  lemma NothingMerged(c: Catalog)
    requires Merged(EMPTY_CATALOG, c) == EMPTY_CATALOG
    ensures c == EMPTY_CATALOG
  {
    assert MergedCpus(map[], c.cpus).Keys == c.cpus.Keys;
    assert (map[] + c.nics).Keys == c.nics.Keys && (map[] + c.models).Keys == c.models.Keys;
    assert (map[] + c.iops).Keys == c.iops.Keys && (map[] + c.settings).Keys == c.settings.Keys;
  }
}
