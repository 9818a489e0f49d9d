/** Importing in "add" mode. */
module CatalogAdd {
  import opened Sequences
  import opened Text
  import opened CatalogModel
  import opened CatalogImport

  // ── what an adding import keeps ───────────────────────────────────────────

  /** The same columns, and every value that was there. */
  ghost predicate KeepsSpec(a: Spec, b: Spec) {
    && (forall h :: h in a <==> h in b)
    && forall h :: h in a && a[h] != Empty ==> b[h] == a[h]
  }

  ghost predicate KeepsCpus(a: map<string, Spec>, b: map<string, Spec>) {
    forall k :: k in a ==> k in b && KeepsSpec(a[k], b[k])
  }

  ghost predicate KeepsAll<V(!new)>(a: map<string, V>, b: map<string, V>) {
    forall k :: k in a ==> k in b && b[k] == a[k]
  }

  ghost predicate Keeps(a: Catalog, b: Catalog) {
    && KeepsCpus(a.cpus, b.cpus) && KeepsAll(a.nics, b.nics) && a.drives <= b.drives
    && KeepsAll(a.models, b.models) && KeepsAll(a.iops, b.iops) && KeepsAll(a.settings, b.settings)
  }

  lemma KeepsSpecTrans(a: Spec, b: Spec, c: Spec)
    requires KeepsSpec(a, b) && KeepsSpec(b, c)
    ensures KeepsSpec(a, c)
  {
  }

  lemma KeepsCpusTrans(a: map<string, Spec>, b: map<string, Spec>, c: map<string, Spec>)
    requires KeepsCpus(a, b) && KeepsCpus(b, c)
    ensures KeepsCpus(a, c)
  {
    forall k | k in a ensures k in c && KeepsSpec(a[k], c[k]) {
      KeepsSpecTrans(a[k], b[k], c[k]);
    }
  }

  // ── CPU rows ──────────────────────────────────────────────────────────────

  /** Nothing in the row is left to fill. */
  ghost predicate Full(spec: Spec, fields: map<Column, Cell>) {
    forall h :: h in spec && h in fields && fields[h] != Empty ==> spec[h] != Empty
  }

  ghost predicate CpuSettled(env: Env, cpus: map<string, Spec>, r: Row) {
    var fields := CpuFields(env, r);
    DescOf(fields) == "" || (DescOf(fields) in cpus && Full(cpus[DescOf(fields)], fields))
  }

  lemma CpuRowSettles(env: Env, cpus: map<string, Spec>, r: Row)
    ensures KeepsCpus(cpus, CpuRow(env, cpus, r, false))
    ensures CpuSettled(env, CpuRow(env, cpus, r, false), r)
  {
  }

  lemma CpuRowStays(env: Env, cpus: map<string, Spec>, r: Row)
    requires CpuSettled(env, cpus, r)
    ensures CpuRow(env, cpus, r, false) == cpus
  {
    var fields := CpuFields(env, r);
    var desc := DescOf(fields);
    if desc != "" {
      assert ApplySpec(cpus[desc], fields, false) == cpus[desc];
    }
  }

  lemma CpuSettledGrows(env: Env, a: map<string, Spec>, b: map<string, Spec>, r: Row)
    requires CpuSettled(env, a, r) && KeepsCpus(a, b)
    ensures CpuSettled(env, b, r)
  {
    var desc := DescOf(CpuFields(env, r));
    if desc != "" {
      assert KeepsSpec(a[desc], b[desc]);
    }
  }

  lemma LastCpuRow(env: Env, cpus: map<string, Spec>, rows: seq<Row>)
    requires rows != []
    ensures KeepsCpus(CpuRows(env, cpus, rows[..|rows|-1], false), CpuRows(env, cpus, rows, false))
    ensures CpuSettled(env, CpuRows(env, cpus, rows, false), rows[|rows|-1])
  {
    CpuRowSettles(env, CpuRows(env, cpus, rows[..|rows|-1], false), rows[|rows|-1]);
  }

  lemma {:induction false} CpuRowsKeep(env: Env, cpus: map<string, Spec>, rows: seq<Row>)
    ensures KeepsCpus(cpus, CpuRows(env, cpus, rows, false))
  {
    if rows != [] {
      CpuRowsKeep(env, cpus, rows[..|rows|-1]);
      LastCpuRow(env, cpus, rows);
      KeepsCpusTrans(cpus, CpuRows(env, cpus, rows[..|rows|-1], false), CpuRows(env, cpus, rows, false));
    }
  }

  /** Once settled, a row stays settled through every row after it. */
  lemma {:induction false} CpuRowsSettle(env: Env, cpus: map<string, Spec>, rows: seq<Row>, r: Row)
    requires r in rows
    ensures CpuSettled(env, CpuRows(env, cpus, rows, false), r)
  {
    var n := |rows| - 1;
    if r == rows[n] {
      LastCpuRow(env, cpus, rows);
    } else {
      assert rows == rows[..n] + [rows[n]];
      CpuRowsSettle(env, cpus, rows[..n], r);
      SettledPastLast(env, cpus, rows, r);
    }
  }

  lemma SettledPastLast(env: Env, cpus: map<string, Spec>, rows: seq<Row>, r: Row)
    requires rows != [] && CpuSettled(env, CpuRows(env, cpus, rows[..|rows|-1], false), r)
    ensures CpuSettled(env, CpuRows(env, cpus, rows, false), r)
  {
    LastCpuRow(env, cpus, rows);
    CpuSettledGrows(env, CpuRows(env, cpus, rows[..|rows|-1], false), CpuRows(env, cpus, rows, false), r);
  }

  lemma {:induction false} CpuRowsStay(env: Env, cpus: map<string, Spec>, rows: seq<Row>)
    requires forall i :: 0 <= i < |rows| ==> CpuSettled(env, cpus, rows[i])
    ensures CpuRows(env, cpus, rows, false) == cpus
  {
    if rows != [] {
      CpuRowsStay(env, cpus, rows[..|rows|-1]);
      CpuRowStays(env, cpus, rows[|rows|-1]);
    }
  }

  // ── NIC and drive rows ────────────────────────────────────────────────────

  ghost predicate NicSettled(env: Env, nics: map<string, Nic>, r: Row) {
    var desc := TextOf(env, r, Description);
    desc == "" || (desc in nics && IntOf(env, r, Ports, 0).Ok?)
  }

  lemma NicRowSettles(env: Env, nics: map<string, Nic>, r: Row)
    requires NicRow(env, nics, r, false).Ok?
    ensures KeepsAll(nics, NicRow(env, nics, r, false).value) && NicSettled(env, NicRow(env, nics, r, false).value, r)
  {
  }

  lemma LastNicRow(env: Env, nics: map<string, Nic>, rows: seq<Row>)
    requires rows != [] && NicRows(env, nics, rows, false).Ok?
    ensures NicRows(env, nics, rows[..|rows|-1], false).Ok?
    ensures KeepsAll(NicRows(env, nics, rows[..|rows|-1], false).value, NicRows(env, nics, rows, false).value)
    ensures NicSettled(env, NicRows(env, nics, rows, false).value, rows[|rows|-1])
  {
    NicRowSettles(env, NicRows(env, nics, rows[..|rows|-1], false).value, rows[|rows|-1]);
  }

  lemma {:induction false} NicRowsKeep(env: Env, nics: map<string, Nic>, rows: seq<Row>)
    requires NicRows(env, nics, rows, false).Ok?
    ensures KeepsAll(nics, NicRows(env, nics, rows, false).value)
  {
    if rows != [] {
      LastNicRow(env, nics, rows);
      NicRowsKeep(env, nics, rows[..|rows|-1]);
    }
  }

  lemma {:induction false} NicRowsSettle(env: Env, nics: map<string, Nic>, rows: seq<Row>, r: Row)
    requires r in rows && NicRows(env, nics, rows, false).Ok?
    ensures NicSettled(env, NicRows(env, nics, rows, false).value, r)
  {
    var n := |rows| - 1;
    LastNicRow(env, nics, rows);
    if r != rows[n] {
      assert rows == rows[..n] + [rows[n]];
      NicRowsSettle(env, nics, rows[..n], r);
      NicSettledGrows(env, NicRows(env, nics, rows[..n], false).value, NicRows(env, nics, rows, false).value, r);
    }
  }

  lemma NicSettledGrows(env: Env, a: map<string, Nic>, b: map<string, Nic>, r: Row)
    requires NicSettled(env, a, r) && KeepsAll(a, b)
    ensures NicSettled(env, b, r)
  {
  }

  lemma {:induction false} NicRowsStay(env: Env, nics: map<string, Nic>, rows: seq<Row>)
    requires forall i :: 0 <= i < |rows| ==> NicSettled(env, nics, rows[i])
    ensures NicRows(env, nics, rows, false) == Ok(nics)
  {
    if rows != [] {
      NicRowsStay(env, nics, rows[..|rows|-1]);
      assert NicSettled(env, nics, rows[|rows|-1]);
    }
  }

  ghost predicate DriveSettled(env: Env, drives: set<Drive>, r: Row) {
    var tb, kind := RealOf(env, r, SizeTb), TextOf(env, r, Kind);
    tb.Ok? && (kind == "" || tb.value <= 0.0 || Drive(kind, tb.value) in drives)
  }

  lemma LastDriveRow(env: Env, drives: set<Drive>, rows: seq<Row>)
    requires rows != [] && DriveRows(env, drives, rows).Ok?
    ensures DriveRows(env, drives, rows[..|rows|-1]).Ok?
    ensures DriveRows(env, drives, rows[..|rows|-1]).value <= DriveRows(env, drives, rows).value
    ensures DriveSettled(env, DriveRows(env, drives, rows).value, rows[|rows|-1])
  {
  }

  lemma {:induction false} DriveRowsKeep(env: Env, drives: set<Drive>, rows: seq<Row>)
    requires DriveRows(env, drives, rows).Ok?
    ensures drives <= DriveRows(env, drives, rows).value
  {
    if rows != [] {
      LastDriveRow(env, drives, rows);
      DriveRowsKeep(env, drives, rows[..|rows|-1]);
    }
  }

  lemma {:induction false} DriveRowsSettle(env: Env, drives: set<Drive>, rows: seq<Row>, r: Row)
    requires r in rows && DriveRows(env, drives, rows).Ok?
    ensures DriveSettled(env, DriveRows(env, drives, rows).value, r)
  {
    var n := |rows| - 1;
    LastDriveRow(env, drives, rows);
    if r != rows[n] {
      assert rows == rows[..n] + [rows[n]];
      DriveRowsSettle(env, drives, rows[..n], r);
      DriveSettledGrows(env, DriveRows(env, drives, rows[..n]).value, DriveRows(env, drives, rows).value, r);
    }
  }

  lemma DriveSettledGrows(env: Env, a: set<Drive>, b: set<Drive>, r: Row)
    requires DriveSettled(env, a, r) && a <= b
    ensures DriveSettled(env, b, r)
  {
  }

  lemma {:induction false} DriveRowsStay(env: Env, drives: set<Drive>, rows: seq<Row>)
    requires forall i :: 0 <= i < |rows| ==> DriveSettled(env, drives, rows[i])
    ensures DriveRows(env, drives, rows) == Ok(drives)
  {
    if rows != [] {
      var r := rows[|rows|-1];
      DriveRowsStay(env, drives, rows[..|rows|-1]);
      assert DriveSettled(env, drives, r);
      var d := Drive(TextOf(env, r, Kind), RealOf(env, r, SizeTb).value);
      assert d in drives ==> drives + {d} == drives;
    }
  }

  // ── model rows ────────────────────────────────────────────────────────────

  lemma {:induction false} WithCpusKeeps(cpus: map<string, Spec>, options: seq<CpuOption>)
    ensures KeepsCpus(cpus, WithCpus(cpus, options))
  {
    if options != [] {
      WithCpusKeeps(cpus, options[..|options|-1]);
    }
  }

  lemma {:induction false} WithNicsKeeps(nics: map<string, Nic>, options: seq<NicOption>)
    ensures KeepsAll(nics, WithNics(nics, options))
  {
    if options != [] {
      WithNicsKeeps(nics, options[..|options|-1]);
    }
  }

  predicate NamesCpu(options: seq<CpuOption>, desc: string) {
    exists i :: 0 <= i < |options| && BaseDesc(options[i].desc) == desc
  }

  predicate NamesNic(options: seq<NicOption>, desc: string) {
    exists i :: 0 <= i < |options| && BaseDesc(options[i].desc) == desc
  }

  lemma {:induction false} WithCpusNamed(cpus: map<string, Spec>, options: seq<CpuOption>, k: string)
    ensures k in WithCpus(cpus, options) <==> k in cpus || NamesCpu(options, k)
  {
    if options != [] {
      var front, last := options[..|options|-1], options[|options|-1];
      WithCpusNamed(cpus, front, k);
      assert options == front + [last];
      assert NamesCpu(options, k) <==> NamesCpu(front, k) || BaseDesc(last.desc) == k;
    }
  }

  lemma {:induction false} WithNicsNamed(nics: map<string, Nic>, options: seq<NicOption>, k: string)
    ensures k in WithNics(nics, options) <==> k in nics || NamesNic(options, k)
  {
    if options != [] {
      var front, last := options[..|options|-1], options[|options|-1];
      WithNicsNamed(nics, front, k);
      assert options == front + [last];
      assert NamesNic(options, k) <==> NamesNic(front, k) || BaseDesc(last.desc) == k;
    }
  }

  lemma BuiltParts(env: Env, c: Catalog, name: string, r: Row, options: Options, data: StorageData)
    requires BuildModel(env, c, name, r, options, data).Ok?
    ensures var out := BuildModel(env, c, name, r, options, data).value;
            && name in out.models && out.models == c.models[name := out.models[name]]
            && out.cpus == WithCpus(c.cpus, For(options.cpus, name))
            && out.nics == WithNics(c.nics, For(options.nics, name))
            && out.drives == c.drives + (if data == NO_STORAGE then {} else LabelledDrives(data))
            && out.iops == c.iops && out.settings == c.settings
  {
    BuildsWhen(env, c, name, r, options, data);
  }

  /** A new model only adds: its own row, and the CPUs, NICs and drives it names that were missing. */
  lemma ModelBuiltKeeps(env: Env, c: Catalog, name: string, r: Row, options: Options, data: StorageData)
    requires BuildModel(env, c, name, r, options, data).Ok? && name !in c.models
    ensures Keeps(c, BuildModel(env, c, name, r, options, data).value)
    ensures var out := BuildModel(env, c, name, r, options, data).value;
            && (forall k :: k in out.models <==> k in c.models || k == name)
            && (forall k :: k in out.cpus <==> k in c.cpus || NamesCpu(For(options.cpus, name), k))
            && (forall k :: k in out.nics <==> k in c.nics || NamesNic(For(options.nics, name), k))
            && out.drives == c.drives + (if data == NO_STORAGE then {} else LabelledDrives(data))
            && out.iops == c.iops && out.settings == c.settings
  {
    BuiltParts(env, c, name, r, options, data);
    WithCpusKeeps(c.cpus, For(options.cpus, name));
    WithNicsKeeps(c.nics, For(options.nics, name));
    forall k
      ensures k in WithCpus(c.cpus, For(options.cpus, name)) <==> k in c.cpus || NamesCpu(For(options.cpus, name), k)
    {
      WithCpusNamed(c.cpus, For(options.cpus, name), k);
    }
    forall k
      ensures k in WithNics(c.nics, For(options.nics, name)) <==> k in c.nics || NamesNic(For(options.nics, name), k)
    {
      WithNicsNamed(c.nics, For(options.nics, name), k);
    }
  }

  ghost predicate ModelSettled(env: Env, c: Catalog, r: Row) {
    TextOf(env, r, Name) == "" || TextOf(env, r, Name) in c.models
  }

  lemma ModelRowSettles(env: Env, w: Work, options: Options, r: Row)
    requires ModelRow(env, w, options, r, false).Ok?
    ensures var out := ModelRow(env, w, options, r, false).value;
            Keeps(w.catalog, out.catalog) && ModelSettled(env, out.catalog, r)
  {
    var name := TextOf(env, r, Name);
    if name != "" && name !in w.catalog.models {
      ModelBuiltKeeps(env, w.catalog, name, r, options, StorageFor(w.stor, options, name));
    }
  }

  lemma KeepsTrans(a: Catalog, b: Catalog, c: Catalog)
    requires Keeps(a, b) && Keeps(b, c)
    ensures Keeps(a, c)
  {
    KeepsCpusTrans(a.cpus, b.cpus, c.cpus);
  }

  lemma ModelSettledGrows(env: Env, a: Catalog, b: Catalog, r: Row)
    requires ModelSettled(env, a, r) && Keeps(a, b)
    ensures ModelSettled(env, b, r)
  {
  }

  lemma {:induction false} ModelRowsKeep(env: Env, w: Work, options: Options, rows: seq<Row>) returns (out: Work)
    requires ModelRows(env, w, options, rows, false).Ok?
    ensures ModelRows(env, w, options, rows, false) == Ok(out) && Keeps(w.catalog, out.catalog)
  {
    if rows == [] {
      out := w;
    } else {
      var before := ModelRowsKeep(env, w, options, rows[..|rows|-1]);
      out := LastRowSettles(env, w, before, options, rows);
    }
  }

  lemma {:induction false} ModelRowsSettle(env: Env, w: Work, options: Options, rows: seq<Row>, r: Row)
    returns (out: Work)
    requires r in rows && ModelRows(env, w, options, rows, false).Ok?
    ensures ModelRows(env, w, options, rows, false) == Ok(out) && ModelSettled(env, out.catalog, r)
  {
    if r == rows[|rows|-1] {
      var before := ModelRowsKeep(env, w, options, rows[..|rows|-1]);
      out := LastRowSettles(env, w, before, options, rows);
    } else {
      assert rows == rows[..|rows|-1] + [rows[|rows|-1]];
      var before := ModelRowsSettle(env, w, options, rows[..|rows|-1], r);
      out := SettledPastModel(env, w, before, options, rows, r);
    }
  }

  lemma SettledPastModel(env: Env, w: Work, before: Work, options: Options, rows: seq<Row>, r: Row) returns (out: Work)
    requires rows != [] && ModelRows(env, w, options, rows[..|rows|-1], false) == Ok(before)
    requires ModelSettled(env, before.catalog, r)
    requires ModelRows(env, w, options, rows, false).Ok?
    ensures ModelRows(env, w, options, rows, false) == Ok(out) && ModelSettled(env, out.catalog, r)
  {
    var same := ModelRowsKeep(env, w, options, rows[..|rows|-1]);
    out := LastRowSettles(env, w, before, options, rows);
    ModelSettledGrows(env, before.catalog, out.catalog, r);
  }

  lemma LastRowSettles(env: Env, w: Work, before: Work, options: Options, rows: seq<Row>) returns (out: Work)
    requires rows != [] && ModelRows(env, w, options, rows[..|rows|-1], false) == Ok(before)
    requires ModelRows(env, w, options, rows, false).Ok? && Keeps(w.catalog, before.catalog)
    ensures ModelRows(env, w, options, rows, false) == Ok(out)
    ensures Keeps(w.catalog, out.catalog) && Keeps(before.catalog, out.catalog)
    ensures ModelSettled(env, out.catalog, rows[|rows|-1])
  {
    out := ModelRow(env, before, options, rows[|rows|-1], false).value;
    ModelRowSettles(env, before, options, rows[|rows|-1]);
    KeepsTrans(w.catalog, before.catalog, out.catalog);
  }

  lemma {:induction false} ModelRowsStay(env: Env, w: Work, options: Options, rows: seq<Row>)
    requires forall i :: 0 <= i < |rows| ==> ModelSettled(env, w.catalog, rows[i])
    ensures ModelRows(env, w, options, rows, false) == Ok(w)
  {
    if rows != [] {
      ModelRowsStay(env, w, options, rows[..|rows|-1]);
      assert ModelSettled(env, w.catalog, rows[|rows|-1]);
    }
  }

  // ── key/value rows ────────────────────────────────────────────────────────

  lemma {:induction false} IopsRowsTwice(env: Env, iops: map<string, int>, rows: seq<Row>)
    ensures KeepsAll(iops, IopsRows(env, iops, rows, false))
    ensures forall i :: 0 <= i < |rows| ==> IopsSettled(env, IopsRows(env, iops, rows, false), rows[i])
  {
    if rows != [] {
      var n := |rows| - 1;
      IopsRowsTwice(env, iops, rows[..n]);
      forall i | 0 <= i < n ensures IopsSettled(env, IopsRows(env, iops, rows, false), rows[i]) {
        assert IopsSettled(env, IopsRows(env, iops, rows[..n], false), rows[..n][i]);
      }
    }
  }

  ghost predicate IopsSettled(env: Env, iops: map<string, int>, r: Row) {
    TextOf(env, r, DriveType) == "" || ToInt(env, Get(r, IopsValue, Empty)).None? || TextOf(env, r, DriveType) in iops
  }

  lemma {:induction false} IopsRowsStay(env: Env, iops: map<string, int>, rows: seq<Row>)
    requires forall i :: 0 <= i < |rows| ==> IopsSettled(env, iops, rows[i])
    ensures IopsRows(env, iops, rows, false) == iops
  {
    if rows != [] {
      IopsRowsStay(env, iops, rows[..|rows|-1]);
      assert IopsSettled(env, iops, rows[|rows|-1]);
    }
  }

  ghost predicate SettingSettled(env: Env, settings: map<string, real>, r: Row) {
    TextOf(env, r, Key) == "" || ToReal(env, Get(r, Value, Empty)).None? || TextOf(env, r, Key) in settings
  }

  lemma {:induction false} SettingRowsTwice(env: Env, settings: map<string, real>, rows: seq<Row>)
    ensures KeepsAll(settings, SettingRows(env, settings, rows, false))
    ensures forall i :: 0 <= i < |rows| ==> SettingSettled(env, SettingRows(env, settings, rows, false), rows[i])
  {
    if rows != [] {
      var n := |rows| - 1;
      SettingRowsTwice(env, settings, rows[..n]);
      forall i | 0 <= i < n ensures SettingSettled(env, SettingRows(env, settings, rows, false), rows[i]) {
        assert SettingSettled(env, SettingRows(env, settings, rows[..n], false), rows[..n][i]);
      }
    }
  }

  lemma {:induction false} SettingRowsStay(env: Env, settings: map<string, real>, rows: seq<Row>)
    requires forall i :: 0 <= i < |rows| ==> SettingSettled(env, settings, rows[i])
    ensures SettingRows(env, settings, rows, false) == settings
  {
    if rows != [] {
      SettingRowsStay(env, settings, rows[..|rows|-1]);
      assert SettingSettled(env, settings, rows[|rows|-1]);
    }
  }

  // ── the whole workbook ────────────────────────────────────────────────────

  /** No row of the workbook has anything left to add. */
  ghost predicate Settled(env: Env, c: Catalog, wb: Workbook) {
    && (forall i :: 0 <= i < |Rows(wb, Cpus)| ==> CpuSettled(env, c.cpus, Rows(wb, Cpus)[i]))
    && (forall i :: 0 <= i < |Rows(wb, Nics)| ==> NicSettled(env, c.nics, Rows(wb, Nics)[i]))
    && (forall i :: 0 <= i < |Rows(wb, Drives)| ==> DriveSettled(env, c.drives, Rows(wb, Drives)[i]))
    && (forall i :: 0 <= i < |Rows(wb, Models)| ==> ModelSettled(env, c, Rows(wb, Models)[i]))
    && (forall i :: 0 <= i < |Rows(wb, DriveIops)| ==> IopsSettled(env, c.iops, Rows(wb, DriveIops)[i]))
    && (forall i :: 0 <= i < |Rows(wb, Settings)| ==> SettingSettled(env, c.settings, Rows(wb, Settings)[i]))
  }

  lemma PartsSettle(env: Env, c: Catalog, wb: Workbook)
    requires ImportParts(env, c, wb, false).Ok?
    ensures var out := ImportParts(env, c, wb, false).value;
            && Keeps(c, out)
            && (forall i :: 0 <= i < |Rows(wb, Cpus)| ==> CpuSettled(env, out.cpus, Rows(wb, Cpus)[i]))
            && (forall i :: 0 <= i < |Rows(wb, Nics)| ==> NicSettled(env, out.nics, Rows(wb, Nics)[i]))
            && (forall i :: 0 <= i < |Rows(wb, Drives)| ==> DriveSettled(env, out.drives, Rows(wb, Drives)[i]))
  {
    CpuRowsKeep(env, c.cpus, Rows(wb, Cpus));
    forall i | 0 <= i < |Rows(wb, Cpus)|
      ensures CpuSettled(env, CpuRows(env, c.cpus, Rows(wb, Cpus), false), Rows(wb, Cpus)[i])
    {
      CpuRowsSettle(env, c.cpus, Rows(wb, Cpus), Rows(wb, Cpus)[i]);
    }
    NicRowsKeep(env, c.nics, Rows(wb, Nics));
    forall i | 0 <= i < |Rows(wb, Nics)|
      ensures NicSettled(env, NicRows(env, c.nics, Rows(wb, Nics), false).value, Rows(wb, Nics)[i])
    {
      NicRowsSettle(env, c.nics, Rows(wb, Nics), Rows(wb, Nics)[i]);
    }
    DriveRowsKeep(env, c.drives, Rows(wb, Drives));
    forall i | 0 <= i < |Rows(wb, Drives)|
      ensures DriveSettled(env, DriveRows(env, c.drives, Rows(wb, Drives)).value, Rows(wb, Drives)[i])
    {
      DriveRowsSettle(env, c.drives, Rows(wb, Drives), Rows(wb, Drives)[i]);
    }
  }

  lemma ModelsSettle(env: Env, c: Catalog, wb: Workbook) returns (out: Catalog)
    requires ImportModels(env, c, wb, false).Ok?
    ensures ImportModels(env, c, wb, false) == Ok(out) && Keeps(c, out)
    ensures forall i :: 0 <= i < |Rows(wb, Models)| ==> ModelSettled(env, out, Rows(wb, Models)[i])
    ensures Rows(wb, Models) != [] ==>
              OptionsOf(env, wb).Ok? && StorageMap(env, RowsOr(wb, ModelStorage, OldStorage)).Ok?
  {
    out := c;
    if Rows(wb, Models) != [] {
      var stor := StorageMap(env, RowsOr(wb, ModelStorage, OldStorage)).value;
      var w := ModelRowsKeep(env, Work(c, stor), OptionsOf(env, wb).value, Rows(wb, Models));
      out := w.catalog;
      forall i | 0 <= i < |Rows(wb, Models)| ensures ModelSettled(env, out, Rows(wb, Models)[i]) {
        var same := ModelRowsSettle(env, Work(c, stor), OptionsOf(env, wb).value, Rows(wb, Models),
                                    Rows(wb, Models)[i]);
      }
    }
  }

  lemma SettledGrows(env: Env, a: Catalog, b: Catalog, wb: Workbook)
    requires Keeps(a, b)
    ensures forall i :: 0 <= i < |Rows(wb, Cpus)| && CpuSettled(env, a.cpus, Rows(wb, Cpus)[i]) ==>
              CpuSettled(env, b.cpus, Rows(wb, Cpus)[i])
    ensures forall i :: 0 <= i < |Rows(wb, Nics)| && NicSettled(env, a.nics, Rows(wb, Nics)[i]) ==>
              NicSettled(env, b.nics, Rows(wb, Nics)[i])
    ensures forall i :: 0 <= i < |Rows(wb, Drives)| && DriveSettled(env, a.drives, Rows(wb, Drives)[i]) ==>
              DriveSettled(env, b.drives, Rows(wb, Drives)[i])
  {
    forall i | 0 <= i < |Rows(wb, Cpus)| && CpuSettled(env, a.cpus, Rows(wb, Cpus)[i])
      ensures CpuSettled(env, b.cpus, Rows(wb, Cpus)[i])
    {
      CpuSettledGrows(env, a.cpus, b.cpus, Rows(wb, Cpus)[i]);
    }
  }

  /** A successful adding import keeps everything the catalog had, and leaves nothing in the workbook to add. */
  lemma AddSettles(env: Env, c: Catalog, wb: Workbook)
    requires Import(env, c, wb, false).Ok?
    ensures var out := Import(env, c, wb, false).value; Keeps(c, out) && Settled(env, out, wb)
    ensures Rows(wb, Models) != [] ==>
              OptionsOf(env, wb).Ok? && StorageMap(env, RowsOr(wb, ModelStorage, OldStorage)).Ok?
  {
    PartsSettle(env, c, wb);
    var parts := ImportParts(env, c, wb, false).value;
    var models := ModelsSettle(env, parts, wb);
    SettledGrows(env, parts, models, wb);
    KeepsTrans(c, parts, models);
    IopsRowsTwice(env, models.iops, Rows(wb, DriveIops));
    SettingRowsTwice(env, models.settings, Rows(wb, Settings));
    KeepsTrans(c, models, ImportConfig(env, models, wb, false));
  }

  /** A workbook with nothing left to add changes nothing. */
  lemma SettledStays(env: Env, c: Catalog, wb: Workbook)
    requires Settled(env, c, wb) && Recognised(wb)
    requires Rows(wb, Models) != [] ==>
              OptionsOf(env, wb).Ok? && StorageMap(env, RowsOr(wb, ModelStorage, OldStorage)).Ok?
    ensures Import(env, c, wb, false) == Ok(c)
  {
    CpuRowsStay(env, c.cpus, Rows(wb, Cpus));
    NicRowsStay(env, c.nics, Rows(wb, Nics));
    DriveRowsStay(env, c.drives, Rows(wb, Drives));
    if Rows(wb, Models) != [] {
      var stor := StorageMap(env, RowsOr(wb, ModelStorage, OldStorage)).value;
      ModelRowsStay(env, Work(c, stor), OptionsOf(env, wb).value, Rows(wb, Models));
    }
    IopsRowsStay(env, c.iops, Rows(wb, DriveIops));
    SettingRowsStay(env, c.settings, Rows(wb, Settings));
  }

  /** Adding never changes an existing model or any value that is there, whatever the workbook. */
  lemma AddKeeps(env: Env, c: Catalog, wb: Workbook)
    ensures Keeps(c, After(env, c, wb, false))
  {
    if Import(env, c, wb, false).Ok? {
      AddSettles(env, c, wb);
    }
  }

  /** Adding the same workbook a second time changes nothing, whatever the workbook. */
  lemma AddTwice(env: Env, c: Catalog, wb: Workbook)
    ensures After(env, After(env, c, wb, false), wb, false) == After(env, c, wb, false)
  {
    if Import(env, c, wb, false).Ok? {
      AddSettles(env, c, wb);
      SettledStays(env, After(env, c, wb, false), wb);
    }
  }
}
