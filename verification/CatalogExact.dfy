/** What a model must be for its exported rows to give it back: no more than the backup needs, and no less. */
module CatalogExact {
  import opened Sequences
  import opened Text
  import opened CatalogModel
  import opened CatalogImport
  import opened CatalogExport
  import opened CatalogRows
  import opened CatalogBlocks
  import CatalogRelist
  import CatalogRestore

  // ── one option row ────────────────────────────────────────────────────────

  function LinkOf(desc: string, qty: int): Link {
    Link(BaseDesc(desc), qty)
  }

  /** The cells of a link's row. */
  lemma LinkCells(env: Env, desc: string, qty: int)
    ensures IntOr(env, Whole(qty), 1) == Ok(if qty == 0 then 1 else qty)
    ensures Str(env, Write(desc)) == if desc == "" then "None" else desc
    ensures BaseDesc("None") == "None"
  {
  }

  /** A CPU link comes back from its row exactly when it is canonical. */
  lemma CpuLinkExactly(env: Env, c: Catalog, name: string, link: Link)
    requires link.desc in c.cpus ==> CanonicalSpec(c.cpus[link.desc])
    ensures var o := CpuOptionOf(env, CpuLinkRow(c, name, link));
            o.Ok? && (LinkOf(o.value.desc, o.value.qty) == link <==> CanonicalLink(link))
  {
    LinkCells(env, link.desc, link.qty);
    if link.desc in c.cpus {
      var spec := c.cpus[link.desc];
      assert CellFits(Cores, spec[Cores]) && CellFits(Threads, spec[Threads]) && CellFits(Ghz, spec[Ghz]);
    }
  }

  /** So does a NIC link. */
  lemma NicLinkExactly(env: Env, c: Catalog, name: string, link: Link)
    ensures var o := NicOptionOf(env, NicLinkRow(c, name, link));
            o.Ok? && (LinkOf(o.value.desc, o.value.qty) == link <==> CanonicalLink(link))
  {
    LinkCells(env, link.desc, link.qty);
  }

  /** And a drive, exactly when it is of a kind the importer files. */
  lemma DriveExactly(env: Env, name: string, d: Drive)
    ensures var o := DriveOptionOf(env, ModelDriveRow(name, d));
            o.Ok? && (LabelledDrives(AddDrive(NO_STORAGE, o.value)) == {d} <==> KnownKind(d))
  {
    DriveRead(env, name, d);
    NoOtherLabels(AddDrive(NO_STORAGE, DriveOptionOf(env, ModelDriveRow(name, d)).value), d);
    if KnownKind(d) {
      KnownLabelled(d);
    }
  }

  lemma DriveRead(env: Env, name: string, d: Drive)
    ensures var o := DriveOptionOf(env, ModelDriveRow(name, d)); o.Ok? && (KnownKind(d) ==> o.value == d)
  {
    if KnownKind(d) {
      StripTrims(d.kind);
    }
  }

  lemma KnownLabelled(d: Drive)
    requires KnownKind(d)
    ensures LabelledDrives(AddDrive(NO_STORAGE, d)) == {d}
  {
    CatalogRestore.KindLower(d);
    assert [] + [d.tb] == [d.tb];
    OneLabelled(d.kind, d.tb);
    NoneLabelled();
    if d.kind == "HDD" {
      assert AddDrive(NO_STORAGE, d) == NO_STORAGE.(hddTb := [d.tb]);
    } else if d.kind == "SSD" {
      assert AddDrive(NO_STORAGE, d) == NO_STORAGE.(ssdTb := [d.tb]);
    } else {
      assert AddDrive(NO_STORAGE, d) == NO_STORAGE.(nvmeTb := [d.tb]);
    }
  }

  lemma OneLabelled(kind: string, tb: real)
    ensures Labelled(kind, [tb]) == {Drive(kind, tb)}
  {
    assert [tb][0] == tb;
  }

  lemma NoneLabelled()
    ensures forall kind :: Labelled(kind, []) == {}
  {
  }

  lemma NoOtherLabels(data: StorageData, d: Drive)
    ensures d in LabelledDrives(data) ==> KnownKind(d)
  {
  }

  // ── the storage of a model ────────────────────────────────────────────────

  /** The drives read from the rows of these. */
  ghost predicate DrivesRead(env: Env, name: string, drives: seq<Drive>, read: seq<Drive>) {
    && |read| == |drives|
    && forall i :: 0 <= i < |drives| ==> DriveOptionOf(env, ModelDriveRow(name, drives[i])) == Ok(read[i])
  }

  lemma KnownDrivesRead(env: Env, name: string, drives: seq<Drive>, read: seq<Drive>)
    requires Plain(name) && DrivesRead(env, name, drives, read) && KnownKinds(drives)
    ensures read == drives
  {
    forall i | 0 <= i < |drives| ensures read[i] == drives[i] {
      DriveReadsBack(env, name, drives[i]);
    }
  }

  function CountRead(n: Option<int>): Option<int> {
    NonZero(n.GetOr(0))
  }

  /** Counts as they come back from the storage row; a blank type reads as "None". */
  lemma StorageRowRead(env: Env, name: string, s: Storage)
    ensures StorageOf(env, StorageRow(name, s))
            == Ok(NO_STORAGE.(kind := Some(Strip(Str(env, Write(s.kind)))), hdd := CountRead(s.hdd), ssd := CountRead(s.ssd),
                              nvme := CountRead(s.nvme), perNode := CountRead(s.perNode)))
  {
  }

  /** A storage block is rebuilt from its rows exactly when it is one the importer accepts and reproduces. */
  lemma StorageExactly(env: Env, name: string, s: Storage, drives: seq<Drive>, read: seq<Drive>)
    requires Plain(name) && Enumerates(drives, s.drives) && DrivesRead(env, name, drives, read)
    ensures var row := StorageOf(env, StorageRow(name, s));
            row.Ok? && (BuildStorage(AddDrives(row.value, read)) == Ok(s) <==> StorageKept(s))
  {
    var row := StorageOf(env, StorageRow(name, s)).value;
    StorageRowRead(env, name, s);
    if StorageKept(s) {
      var c := EMPTY_CATALOG.(drives := s.drives);
      StorageReadsBack(env, c, name, s);
      KnownDrivesRead(env, name, drives, read);
      CatalogRestore.StorageRebuilt(c, s, drives);
    }
    if BuildStorage(AddDrives(row, read)) == Ok(s) {
      CountsStay(row, read);
      OnlyKept(env, s, AddDrives(row, read));
    }
  }

  lemma CountsStay(data: StorageData, drives: seq<Drive>)
    ensures var out := AddDrives(data, drives);
            && out.kind == data.kind && out.hdd == data.hdd && out.ssd == data.ssd && out.nvme == data.nvme
            && out.perNode == data.perNode
  {
    CatalogRelist.DrivesAppend(data, drives);
  }

  lemma OnlyKept(env: Env, s: Storage, data: StorageData)
    requires data.kind == Some(Strip(Str(env, Write(s.kind)))) && data.hdd == CountRead(s.hdd)
    requires data.ssd == CountRead(s.ssd)
    requires data.nvme == CountRead(s.nvme) && data.perNode == CountRead(s.perNode) && BuildStorage(data) == Ok(s)
    ensures StorageKept(s)
  {
    TextReadsBack(env, s.kind);
    forall d | d in s.drives ensures KnownKind(d) {
      NoOtherLabels(data, d);
    }
  }

  // ── the whole model ───────────────────────────────────────────────────────

  ghost predicate CpusRead(env: Env, c: Catalog, name: string, links: seq<Link>, read: seq<CpuOption>) {
    && |read| == |links|
    && forall i :: 0 <= i < |links| ==> CpuOptionOf(env, CpuLinkRow(c, name, links[i])) == Ok(read[i])
  }

  ghost predicate NicsRead(env: Env, c: Catalog, name: string, links: seq<Link>, read: seq<NicOption>) {
    && |read| == |links|
    && forall i :: 0 <= i < |links| ==> NicOptionOf(env, NicLinkRow(c, name, links[i])) == Ok(read[i])
  }

  /** The options filed under the model are those of its own rows. */
  ghost predicate OwnRows(env: Env, c: Catalog, name: string, m: Model, drives: seq<Drive>, options: Options) {
    && CpusRead(env, c, name, m.cpus, For(options.cpus, name))
    && NicsRead(env, c, name, m.nics, For(options.nics, name))
    && multiset(For(options.ram, name)) == m.ram && DrivesRead(env, name, drives, For(options.drives, name))
    && if m.storage.Some? then Enumerates(drives, m.storage.value.drives) else drives == []
  }

  /** And its storage row, if it has storage, is the one filed under it. */
  ghost predicate OwnStorage(env: Env, name: string, m: Model, stor: map<string, StorageData>) {
    if m.storage.Some? then name in stor && Ok(stor[name]) == StorageOf(env, StorageRow(name, m.storage.value))
    else name !in stor
  }

  lemma CpuLinksExactly(env: Env, c: Catalog, name: string, links: seq<Link>, read: seq<CpuOption>)
    requires CpusRead(env, c, name, links, read)
    requires forall i :: 0 <= i < |links| && links[i].desc in c.cpus ==> CanonicalSpec(c.cpus[links[i].desc])
    ensures (Distinct(CpuLinks(read)) && CpuLinks(read) == links) <==> LinksKept(links)
  {
    forall i | 0 <= i < |links| ensures CpuLinks(read)[i] == links[i] <==> CanonicalLink(links[i]) {
      CpuLinkExactly(env, c, name, links[i]);
    }
  }

  lemma NicLinksExactly(env: Env, c: Catalog, name: string, links: seq<Link>, read: seq<NicOption>)
    requires NicsRead(env, c, name, links, read)
    ensures (Distinct(NicLinks(read)) && NicLinks(read) == links) <==> LinksKept(links)
  {
    forall i | 0 <= i < |links| ensures NicLinks(read)[i] == links[i] <==> CanonicalLink(links[i]) {
      NicLinkExactly(env, c, name, links[i]);
    }
  }

  /** What the importer makes of the data is the model's storage. */
  predicate StorageBuilt(data: StorageData, storage: Option<Storage>) {
    if data == NO_STORAGE then storage == None else BuildStorage(data).Ok? && storage == Some(BuildStorage(data).value)
  }

  lemma StorageForExactly(env: Env, c: Catalog, name: string, m: Model, drives: seq<Drive>, options: Options,
                          stor: map<string, StorageData>)
    requires Plain(name) && OwnRows(env, c, name, m, drives, options) && OwnStorage(env, name, m, stor)
    ensures StorageBuilt(StorageFor(stor, options, name), m.storage)
            <==> (m.storage.Some? ==> StorageKept(m.storage.value))
  {
    var read := For(options.drives, name);
    if m.storage.Some? {
      StorageExactly(env, name, m.storage.value, drives, read);
      StorageRowRead(env, name, m.storage.value);
      CountsStay(stor[name], read);
    } else {
      assert read == [];
    }
  }

  /** The model built from its own row and options is the model, part by part. */
  lemma BuiltIsModel(env: Env, w: Catalog, name: string, m: Model, options: Options, data: StorageData)
    requires multiset(For(options.ram, name)) == m.ram
    ensures var built := BuildModel(env, w, name, ModelRowOf(name, m), options, data);
            var cpus, nics := CpuLinks(For(options.cpus, name)), NicLinks(For(options.nics, name));
            (built.Ok? && name in built.value.models && built.value.models[name] == m)
            <==> ModelFields(env, name, ModelRowOf(name, m)) == Ok(NoOptions(m))
                 && (Distinct(cpus) && cpus == m.cpus) && (Distinct(nics) && nics == m.nics)
                 && StorageBuilt(data, m.storage)
  {
    BuildsWhen(env, w, name, ModelRowOf(name, m), options, data);
    RowCarries(name, m);
    ReadBackIs(env, ModelRowOf(name, m), name, m);
  }

  lemma RowBuilds(env: Env, w: Work, options: Options, name: string, m: Model)
    requires Plain(name)
    ensures var r := ModelRow(env, w, options, ModelRowOf(name, m), true);
            var built := BuildModel(env, w.catalog, name, ModelRowOf(name, m), options,
                                    StorageFor(w.stor, options, name));
            (r.Ok? <==> built.Ok?) && (r.Ok? ==> r.value.catalog == built.value)
  {
    CatalogRestore.NameReadsBack(env, name, m);
  }

  /** A model comes back from its own exported rows exactly when its columns are canonical, its links carry a quantity
      and name their catalog rows outright, and its storage block is one the importer accepts and reproduces. */
  lemma ModelExactly(env: Env, c: Catalog, w: Work, name: string, m: Model, drives: seq<Drive>, options: Options)
    requires Plain(name) && OwnRows(env, c, name, m, drives, options) && OwnStorage(env, name, m, w.stor)
    requires forall i :: 0 <= i < |m.cpus| && m.cpus[i].desc in c.cpus ==> CanonicalSpec(c.cpus[m.cpus[i].desc])
    ensures var r := ModelRow(env, w, options, ModelRowOf(name, m), true);
            (r.Ok? && name in r.value.catalog.models && r.value.catalog.models[name] == m)
            <==> CanonicalFields(env, name, m) && LinksKept(m.cpus) && LinksKept(m.nics)
                 && (m.storage.Some? ==> StorageKept(m.storage.value))
  {
    var data := StorageFor(w.stor, options, name);
    RowBuilds(env, w, options, name, m);
    BuiltIsModel(env, w.catalog, name, m, options, data);
    ModelRowExactly(env, name, m);
    CpuLinksExactly(env, c, name, m.cpus, For(options.cpus, name));
    NicLinksExactly(env, c, name, m.nics, For(options.nics, name));
    StorageForExactly(env, c, name, m, drives, options, w.stor);
  }
}
