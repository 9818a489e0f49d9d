/** What an import writes under each key, in either mode. */
module CatalogGain {
  import opened Sequences
  import opened Text
  import opened CatalogModel
  import opened CatalogImport

  // ── the first and the last row of a kind ──────────────────────────────────

  predicate First(rows: seq<Row>, i: nat, p: Row -> bool) {
    i < |rows| && p(rows[i]) && forall j :: 0 <= j < i ==> !p(rows[j])
  }

  predicate Last(rows: seq<Row>, i: nat, p: Row -> bool) {
    i < |rows| && p(rows[i]) && forall j :: i < j < |rows| ==> !p(rows[j])
  }

  predicate NoRow(rows: seq<Row>, p: Row -> bool) {
    forall j :: 0 <= j < |rows| ==> !p(rows[j])
  }

  /** In "add" mode the first such row counts, in "replace" mode the last. */
  predicate Counts(rows: seq<Row>, i: nat, p: Row -> bool, overwrite: bool) {
    if overwrite then Last(rows, i, p) else First(rows, i, p)
  }

  /** One row more counts in "replace" mode, or when none did. */
  lemma OneRowMore(front: seq<Row>, last: Row, p: Row -> bool, overwrite: bool, i: nat)
    ensures NoRow(front + [last], p) <==> NoRow(front, p) && !p(last)
    ensures Counts(front, i, p, overwrite) ==> !NoRow(front, p) && (front + [last])[i] == front[i]
    ensures Counts(front, i, p, overwrite) && !(overwrite && p(last)) ==> Counts(front + [last], i, p, overwrite)
    ensures p(last) && (overwrite || NoRow(front, p)) ==> Counts(front + [last], |front|, p, overwrite)
    ensures (front + [last])[|front|] == last
  {
    var rows := front + [last];
    assert rows[|front|] == last && forall j :: 0 <= j < |front| ==> rows[j] == front[j];
  }

  // ── NICs, IOPS and settings ───────────────────────────────────────────────

  function NicNamed(env: Env, k: string): Row -> bool {
    (r: Row) => k != "" && TextOf(env, r, Description) == k
  }

  /** A NIC that was there stays in "add" mode; else it is as the row that counts describes it. */
  lemma {:induction false} NicWritten(env: Env, nics: map<string, Nic>, rows: seq<Row>, overwrite: bool, k: string)
    returns (i: nat)
    requires NicRows(env, nics, rows, overwrite).Ok?
    ensures var out := NicRows(env, nics, rows, overwrite).value;
            if NoRow(rows, NicNamed(env, k)) || (k in nics && !overwrite)
            then (k in out <==> k in nics) && (k in out ==> out[k] == nics[k])
            else && Counts(rows, i, NicNamed(env, k), overwrite) && IntOf(env, rows[i], Ports, 0).Ok? && k in out
                 && out[k] == Nic(IntOf(env, rows[i], Ports, 0).value, TextOf(env, rows[i], Speed))
  {
    i := 0;
    if rows != [] {
      var front, last := rows[..|rows|-1], rows[|rows|-1];
      assert rows == front + [last];
      i := NicWritten(env, nics, front, overwrite, k);
      OneRowMore(front, last, NicNamed(env, k), overwrite, i);
      if NicNamed(env, k)(last) && (overwrite || NoRow(front, NicNamed(env, k))) {
        i := |front|;
      }
    }
  }

  function IopsNamed(env: Env, k: string): Row -> bool {
    (r: Row) => k != "" && TextOf(env, r, DriveType) == k && ToInt(env, Get(r, IopsValue, Empty)).Some?
  }

  /** So are the IOPS of a drive type, rows without a readable number aside. */
  lemma {:induction false} IopsWritten(env: Env, iops: map<string, int>, rows: seq<Row>, overwrite: bool, k: string)
    returns (i: nat)
    ensures var out := IopsRows(env, iops, rows, overwrite);
            if NoRow(rows, IopsNamed(env, k)) || (k in iops && !overwrite)
            then (k in out <==> k in iops) && (k in out ==> out[k] == iops[k])
            else && Counts(rows, i, IopsNamed(env, k), overwrite) && k in out
                 && Some(out[k]) == ToInt(env, Get(rows[i], IopsValue, Empty))
  {
    i := 0;
    if rows != [] {
      var front, last := rows[..|rows|-1], rows[|rows|-1];
      assert rows == front + [last];
      i := IopsWritten(env, iops, front, overwrite, k);
      OneRowMore(front, last, IopsNamed(env, k), overwrite, i);
      if IopsNamed(env, k)(last) && (overwrite || NoRow(front, IopsNamed(env, k))) {
        i := |front|;
      }
    }
  }

  function SettingNamed(env: Env, k: string): Row -> bool {
    (r: Row) => k != "" && TextOf(env, r, Key) == k && ToReal(env, Get(r, Value, Empty)).Some?
  }

  /** And the settings. */
  lemma {:induction false} SettingWritten(env: Env, settings: map<string, real>, rows: seq<Row>, overwrite: bool,
                                          k: string)
    returns (i: nat)
    ensures var out := SettingRows(env, settings, rows, overwrite);
            if NoRow(rows, SettingNamed(env, k)) || (k in settings && !overwrite)
            then (k in out <==> k in settings) && (k in out ==> out[k] == settings[k])
            else && Counts(rows, i, SettingNamed(env, k), overwrite) && k in out
                 && Some(out[k]) == ToReal(env, Get(rows[i], Value, Empty))
  {
    i := 0;
    if rows != [] {
      var front, last := rows[..|rows|-1], rows[|rows|-1];
      assert rows == front + [last];
      i := SettingWritten(env, settings, front, overwrite, k);
      OneRowMore(front, last, SettingNamed(env, k), overwrite, i);
      if SettingNamed(env, k)(last) && (overwrite || NoRow(front, SettingNamed(env, k))) {
        i := |front|;
      }
    }
  }

  // ── drives ────────────────────────────────────────────────────────────────

  /** The drives added are those of the rows, their kind trimmed and their size above zero. */
  lemma {:induction false} DrivesWritten(env: Env, drives: set<Drive>, rows: seq<Row>, d: Drive)
    requires DriveRows(env, drives, rows).Ok?
    ensures d in DriveRows(env, drives, rows).value
            <==> d in drives || (d.kind != "" && d.tb > 0.0
                                 && exists r :: r in rows && TextOf(env, r, Kind) == d.kind
                                                && RealOf(env, r, SizeTb) == Ok(d.tb))
  {
    if rows != [] {
      var front, last := rows[..|rows|-1], rows[|rows|-1];
      assert rows == front + [last];
      DrivesWritten(env, drives, front, d);
      DriveWritten(env, DriveRows(env, drives, front).value, last, d);
      if r :| r in rows && TextOf(env, r, Kind) == d.kind && RealOf(env, r, SizeTb) == Ok(d.tb) {
        assert r in front || r == last;
      }
    }
  }

  lemma DriveWritten(env: Env, drives: set<Drive>, r: Row, d: Drive)
    requires DriveRow(env, drives, r).Ok?
    ensures d in DriveRow(env, drives, r).value
            <==> || d in drives
                 || (d.kind != "" && d.tb > 0.0 && TextOf(env, r, Kind) == d.kind && RealOf(env, r, SizeTb) == Ok(d.tb))
  {
  }

  // ── CPUs, column by column ────────────────────────────────────────────────

  predicate NamesCpu(env: Env, r: Row, k: string) {
    k != "" && DescOf(CpuFields(env, r)) == k
  }

  function CpuNamed(env: Env, k: string): Row -> bool {
    (r: Row) => NamesCpu(env, r, k)
  }

  /** The row describes the CPU and gives the column a value. */
  predicate GivesCell(env: Env, r: Row, k: string, h: Column) {
    Gives(CpuFields(env, r), k, h)
  }

  predicate Gives(fields: map<Column, Cell>, k: string, h: Column) {
    k != "" && DescOf(fields) == k && h in fields && fields[h] != Empty
  }

  function CpuGiven(env: Env, k: string, h: Column): Row -> bool {
    (r: Row) => GivesCell(env, r, k, h)
  }

  /** The cell the row gives. */
  function GivenCell(env: Env, r: Row, h: Column): Cell {
    CellOf(CpuFields(env, r), h)
  }

  function CellOf(fields: map<Column, Cell>, h: Column): Cell {
    if h in fields then fields[h] else Empty
  }

  function Zero(h: Column): Cell {
    if h.Cores? || h.Threads? then Whole(0) else if h.Ghz? then Dec(0.0) else Empty
  }

  function CellIn(cpus: map<string, Spec>, k: string, h: Column): Cell {
    if k in cpus && h in cpus[k] then cpus[k][h] else Empty
  }

  lemma NewCell(fields: map<Column, Cell>, h: Column)
    requires IsSpecColumn(h)
    ensures h in NewSpec(fields)
    ensures NewSpec(fields)[h] == if h in fields && fields[h] != Empty then fields[h] else Zero(h)
  {
    BareCell(OrZero(fields, Cores, Whole(0)), OrZero(fields, Threads, Whole(0)), OrZero(fields, Ghz, Dec(0.0)), h);
  }

  lemma BareCell(cores: Cell, threads: Cell, ghz: Cell, h: Column)
    requires IsSpecColumn(h)
    ensures h in BareSpec(cores, threads, ghz)
    ensures BareSpec(cores, threads, ghz)[h]
            == if h == Cores then cores else if h == Threads then threads else if h == Ghz then ghz else Empty
  {
  }

  lemma AppliedCell(spec: Spec, fields: map<Column, Cell>, overwrite: bool, h: Column)
    requires h in spec
    ensures h in ApplySpec(spec, fields, overwrite)
    ensures ApplySpec(spec, fields, overwrite)[h]
            == if h in fields && fields[h] != Empty && (overwrite || spec[h] == Empty) then fields[h] else spec[h]
  {
  }

  /** One row: it fills what is empty, or in "replace" mode what it gives; a new CPU without cores, threads or clock
      has 0. */
  lemma CpuCell(env: Env, cpus: map<string, Spec>, r: Row, overwrite: bool, k: string, h: Column)
    requires IsSpecColumn(h) && (k in cpus ==> h in cpus[k])
    ensures var out := CpuRow(env, cpus, r, overwrite);
            && (k in out <==> k in cpus || NamesCpu(env, r, k)) && (k in out ==> h in out[k])
            && (k in cpus ==>
                  CellIn(out, k, h) == if GivesCell(env, r, k, h) && (overwrite || CellIn(cpus, k, h) == Empty)
                                       then GivenCell(env, r, h) else CellIn(cpus, k, h))
            && (k !in cpus && NamesCpu(env, r, k) ==>
                  CellIn(out, k, h) == if GivesCell(env, r, k, h) then GivenCell(env, r, h) else Zero(h))
  {
    var fields := CpuFields(env, r);
    assert CpuRow(env, cpus, r, overwrite) == FieldsRow(cpus, fields, overwrite);
    FieldsCell(cpus, fields, overwrite, k, h);
  }

  function FieldsRow(cpus: map<string, Spec>, fields: map<Column, Cell>, overwrite: bool): map<string, Spec> {
    var desc := DescOf(fields);
    if desc == "" then cpus
    else if desc in cpus then cpus[desc := ApplySpec(cpus[desc], fields, overwrite)]
    else cpus[desc := NewSpec(fields)]
  }

  lemma FieldsCell(cpus: map<string, Spec>, fields: map<Column, Cell>, overwrite: bool, k: string, h: Column)
    requires IsSpecColumn(h) && (k in cpus ==> h in cpus[k])
    ensures var out := FieldsRow(cpus, fields, overwrite); var named := k != "" && DescOf(fields) == k;
            && (k in out <==> k in cpus || named) && (k in out ==> h in out[k])
            && (k in cpus ==> CellIn(out, k, h) == if Gives(fields, k, h) && (overwrite || CellIn(cpus, k, h) == Empty)
                                                   then CellOf(fields, h) else CellIn(cpus, k, h))
            && (k !in cpus && named ==> CellIn(out, k, h) == if Gives(fields, k, h) then CellOf(fields, h) else Zero(h))
  {
    if DescOf(fields) == k && k != "" {
      NamedCell(cpus, fields, overwrite, k, h);
    } else {
      OtherKept(cpus, fields, overwrite, k);
    }
  }

  lemma OtherKept(cpus: map<string, Spec>, fields: map<Column, Cell>, overwrite: bool, k: string)
    requires !(DescOf(fields) == k && k != "")
    ensures var out := FieldsRow(cpus, fields, overwrite);
            (k in out <==> k in cpus) && (k in out ==> out[k] == cpus[k])
  {
  }

  lemma NamedCell(cpus: map<string, Spec>, fields: map<Column, Cell>, overwrite: bool, k: string, h: Column)
    requires IsSpecColumn(h) && (k in cpus ==> h in cpus[k]) && DescOf(fields) == k != ""
    ensures var out := FieldsRow(cpus, fields, overwrite);
            && k in out && h in out[k]
            && out[k][h] == if k !in cpus then (if CellOf(fields, h) != Empty then fields[h] else Zero(h))
                            else if CellOf(fields, h) != Empty && (overwrite || cpus[k][h] == Empty) then fields[h]
                            else cpus[k][h]
  {
    if k in cpus {
      AppliedCell(cpus[k], fields, overwrite, h);
    } else {
      NewCell(fields, h);
    }
  }

  lemma CpuRowsPush(env: Env, cpus: map<string, Spec>, front: seq<Row>, last: Row, overwrite: bool)
    ensures CpuRows(env, cpus, front + [last], overwrite)
            == CpuRow(env, CpuRows(env, cpus, front, overwrite), last, overwrite)
  {
    assert (front + [last])[..|front|] == front;
  }

  /** The column has the value of the i-th row, the one that counts, or what it was when no row gives one. */
  predicate Filled(env: Env, out: map<string, Spec>, rows: seq<Row>, overwrite: bool, k: string, h: Column, was: Cell,
                   i: nat) {
    && k in out && h in out[k]
    && if NoRow(rows, CpuGiven(env, k, h)) || (was != Empty && !overwrite) then out[k][h] == was
       else Counts(rows, i, CpuGiven(env, k, h), overwrite) && out[k][h] == GivenCell(env, rows[i], h)
  }

  lemma FilledStep(env: Env, cpus: map<string, Spec>, front: seq<Row>, last: Row, overwrite: bool, k: string, h: Column,
                   was: Cell, i: nat) returns (j: nat)
    requires IsSpecColumn(h) && Filled(env, cpus, front, overwrite, k, h, was, i)
    ensures Filled(env, CpuRow(env, cpus, last, overwrite), front + [last], overwrite, k, h, was, j)
  {
    var p := CpuGiven(env, k, h);
    OneRowMore(front, last, p, overwrite, i);
    CpuCell(env, cpus, last, overwrite, k, h);
    assert p(last) <==> GivesCell(env, last, k, h);
    GivenIsSome(env, front, i, k, h);
    j := if p(last) && (overwrite || NoRow(front, p)) then |front| else i;
  }

  lemma GivenIsSome(env: Env, rows: seq<Row>, i: nat, k: string, h: Column)
    ensures i < |rows| && CpuGiven(env, k, h)(rows[i]) ==> GivenCell(env, rows[i], h) != Empty
  {
  }

  /** A column of a CPU that was there: its value in "add" mode; else that of the row that counts. */
  lemma {:induction false} CpuFilled(env: Env, cpus: map<string, Spec>, rows: seq<Row>, overwrite: bool, k: string,
                                     h: Column) returns (i: nat)
    requires IsSpecColumn(h) && k in cpus && h in cpus[k]
    ensures Filled(env, CpuRows(env, cpus, rows, overwrite), rows, overwrite, k, h, cpus[k][h], i)
  {
    i := 0;
    if rows != [] {
      var front, last := rows[..|rows|-1], rows[|rows|-1];
      assert rows == front + [last];
      i := CpuFilled(env, cpus, front, overwrite, k, h);
      i := FilledStep(env, CpuRows(env, cpus, front, overwrite), front, last, overwrite, k, h, cpus[k][h], i);
      CpuRowsPush(env, cpus, front, last, overwrite);
    }
  }

  /** The CPU is there once a row describes it, and the column as its rows fill it from nothing. */
  predicate Added(env: Env, out: map<string, Spec>, rows: seq<Row>, overwrite: bool, k: string, h: Column, i: nat) {
    if NoRow(rows, CpuNamed(env, k)) then k !in out else Filled(env, out, rows, overwrite, k, h, Zero(h), i)
  }

  lemma AddedStep(env: Env, cpus: map<string, Spec>, front: seq<Row>, last: Row, overwrite: bool, k: string, h: Column,
                  i: nat) returns (j: nat)
    requires IsSpecColumn(h) && (overwrite || Zero(h) == Empty) && Added(env, cpus, front, overwrite, k, h, i)
    ensures Added(env, CpuRow(env, cpus, last, overwrite), front + [last], overwrite, k, h, j)
  {
    OneRowMore(front, last, CpuNamed(env, k), overwrite, i);
    if NoRow(front, CpuNamed(env, k)) {
      j := |front|;
      NoneNamed(env, front, k, h);
      OneRowMore(front, last, CpuGiven(env, k, h), overwrite, i);
      CpuCell(env, cpus, last, overwrite, k, h);
      assert CpuGiven(env, k, h)(last) <==> GivesCell(env, last, k, h);
      assert CpuNamed(env, k)(last) <==> NamesCpu(env, last, k);
    } else {
      j := FilledStep(env, cpus, front, last, overwrite, k, h, Zero(h), i);
    }
  }

  /** A column of a CPU that was not there, in "replace" mode, or any but cores, threads and clock: that of the row that
      counts. */
  lemma {:induction false} CpuAdded(env: Env, cpus: map<string, Spec>, rows: seq<Row>, overwrite: bool, k: string,
                                    h: Column) returns (i: nat)
    requires IsSpecColumn(h) && k !in cpus && (overwrite || Zero(h) == Empty)
    ensures Added(env, CpuRows(env, cpus, rows, overwrite), rows, overwrite, k, h, i)
  {
    i := 0;
    if rows != [] {
      var front, last := rows[..|rows|-1], rows[|rows|-1];
      assert rows == front + [last];
      i := CpuAdded(env, cpus, front, overwrite, k, h);
      i := AddedStep(env, CpuRows(env, cpus, front, overwrite), front, last, overwrite, k, h, i);
      CpuRowsPush(env, cpus, front, last, overwrite);
    }
  }

  /** Cores, threads and clock of a CPU that an adding import creates: those of the first row that describes it, or 0.
      */
  lemma {:induction false} CpuSized(env: Env, cpus: map<string, Spec>, rows: seq<Row>, k: string, h: Column)
    returns (i: nat)
    requires IsSpecColumn(h) && k !in cpus && Zero(h) != Empty
    ensures var out := CpuRows(env, cpus, rows, false);
            && (k in out <==> !NoRow(rows, CpuNamed(env, k)))
            && (k in out ==> h in out[k] && out[k][h] != Empty && Counts(rows, i, CpuNamed(env, k), false)
                             && out[k][h] == if GivesCell(env, rows[i], k, h) then GivenCell(env, rows[i], h)
                               else Zero(h))
  {
    i := 0;
    if rows != [] {
      var front, last := rows[..|rows|-1], rows[|rows|-1];
      assert rows == front + [last];
      i := CpuSized(env, cpus, front, k, h);
      OneRowMore(front, last, CpuNamed(env, k), false, i);
      CpuCell(env, CpuRows(env, cpus, front, false), last, false, k, h);
      if NoRow(front, CpuNamed(env, k)) {
        i := |front|;
      }
    }
  }

  lemma NoneNamed(env: Env, rows: seq<Row>, k: string, h: Column)
    ensures NoRow(rows, CpuNamed(env, k)) ==> NoRow(rows, CpuGiven(env, k, h))
  {
  }

  // ── what a model's options create ─────────────────────────────────────────

  predicate FirstCpu(options: seq<CpuOption>, i: nat, k: string) {
    i < |options| && BaseDesc(options[i].desc) == k && forall j :: 0 <= j < i ==> BaseDesc(options[j].desc) != k
  }

  predicate FirstNic(options: seq<NicOption>, i: nat, k: string) {
    i < |options| && BaseDesc(options[i].desc) == k && forall j :: 0 <= j < i ==> BaseDesc(options[j].desc) != k
  }

  /** The option's cores, threads and clock, and nothing else. */
  predicate IsCpuOf(spec: Spec, o: CpuOption) {
    && (forall h :: h in spec <==> IsSpecColumn(h))
    && spec[Cores] == Whole(o.cores) && spec[Threads] == Whole(o.threads) && spec[Ghz] == Dec(o.ghz)
    && forall h :: h in spec && h != Cores && h != Threads && h != Ghz ==> spec[h] == Empty
  }

  lemma FirstCpuPush(front: seq<CpuOption>, last: CpuOption, i: nat, k: string)
    ensures FirstCpu(front, i, k) ==> FirstCpu(front + [last], i, k) && (front + [last])[i] == front[i]
    ensures (forall j :: 0 <= j < |front| ==> BaseDesc(front[j].desc) != k) && BaseDesc(last.desc) == k ==>
              FirstCpu(front + [last], |front|, k) && (front + [last])[|front|] == last
  {
  }

  /** The CPU is as it was, or new and as the i-th option, the first to name it. */
  predicate CreatedBy(out: map<string, Spec>, cpus: map<string, Spec>, options: seq<CpuOption>, k: string, i: nat) {
    if k in cpus then k in out && out[k] == cpus[k]
    else if k in out then FirstCpu(options, i, k) && IsCpuOf(out[k], options[i])
    else forall j :: 0 <= j < |options| ==> BaseDesc(options[j].desc) != k
  }

  ghost predicate CreatedBySome(out: map<string, Spec>, cpus: map<string, Spec>, options: seq<CpuOption>, k: string) {
    exists i: nat :: CreatedBy(out, cpus, options, k, i)
  }

  lemma CreatedStep(before: map<string, Spec>, cpus: map<string, Spec>, front: seq<CpuOption>, last: CpuOption,
                    k: string, i: nat) returns (j: nat)
    requires CreatedBy(before, cpus, front, k, i)
    ensures CreatedBy(WithCpu(before, last), cpus, front + [last], k, j)
  {
    j := if k in before then i else |front|;
    FirstCpuPush(front, last, i, k);
    BareIs(last);
  }

  /** A CPU that is there stays; one that an option names first has the option's cores, threads and clock and nothing
      else. */
  lemma {:induction false} CpuCreated(cpus: map<string, Spec>, options: seq<CpuOption>, k: string) returns (i: nat)
    ensures CreatedBy(WithCpus(cpus, options), cpus, options, k, i)
  {
    i := 0;
    if options != [] {
      var front, last := options[..|options|-1], options[|options|-1];
      assert options == front + [last];
      i := CpuCreated(cpus, front, k);
      i := CreatedStep(WithCpus(cpus, front), cpus, front, last, k, i);
    }
  }

  lemma BareIs(o: CpuOption)
    ensures IsCpuOf(BareSpec(Whole(o.cores), Whole(o.threads), Dec(o.ghz)), o)
  {
  }

  /** So with NICs. */
  lemma {:induction false} NicCreated(nics: map<string, Nic>, options: seq<NicOption>, k: string)
    ensures var out := WithNics(nics, options);
            && (k in nics ==> k in out && out[k] == nics[k])
            && (k !in nics && k in out ==>
                  exists i: nat :: FirstNic(options, i, k) && out[k] == Nic(options[i].ports, options[i].speed))
            && (k !in out ==> forall j :: 0 <= j < |options| ==> BaseDesc(options[j].desc) != k)
  {
    if options != [] {
      var front, last := options[..|options|-1], options[|options|-1];
      assert options == front + [last];
      NicCreated(nics, front, k);
      var before := WithNics(nics, front);
      if k !in nics && k in before {
        var i: nat :| FirstNic(front, i, k) && before[k] == Nic(front[i].ports, front[i].speed);
        assert FirstNic(options, i, k) && options[i] == front[i];
      } else if k !in before && BaseDesc(last.desc) == k {
        assert FirstNic(options, |front|, k);
      }
    }
  }

  // ── the whole import ──────────────────────────────────────────────────────

  /** The row's model is built, and an option of it names this CPU first. */
  ghost predicate CpuFromModel(env: Env, options: Options, r: Row, k: string, spec: Spec) {
    exists i: nat :: FirstCpu(For(options.cpus, TextOf(env, r, Name)), i, k)
                     && IsCpuOf(spec, For(options.cpus, TextOf(env, r, Name))[i])
  }

  ghost predicate NicFromModel(env: Env, options: Options, r: Row, k: string, nic: Nic) {
    exists i: nat :: FirstNic(For(options.nics, TextOf(env, r, Name)), i, k)
                     && var o := For(options.nics, TextOf(env, r, Name))[i]; nic == Nic(o.ports, o.speed)
  }

  lemma ModelCreates(env: Env, w: Work, options: Options, r: Row, overwrite: bool, k: string)
    requires ModelRow(env, w, options, r, overwrite).Ok?
    ensures var out := ModelRow(env, w, options, r, overwrite).value.catalog;
            && out.iops == w.catalog.iops && out.settings == w.catalog.settings
            && (k in w.catalog.cpus ==> k in out.cpus && out.cpus[k] == w.catalog.cpus[k])
            && (k in w.catalog.nics ==> k in out.nics && out.nics[k] == w.catalog.nics[k])
            && (k in out.cpus && k !in w.catalog.cpus ==> CpuFromModel(env, options, r, k, out.cpus[k]))
            && (k in out.nics && k !in w.catalog.nics ==> NicFromModel(env, options, r, k, out.nics[k]))
  {
    var name := TextOf(env, r, Name);
    if name != "" && (name !in w.catalog.models || overwrite) {
      BuildsWhen(env, w.catalog, name, r, options, StorageFor(w.stor, options, name));
      var i := CpuCreated(w.catalog.cpus, For(options.cpus, name), k);
      NicCreated(w.catalog.nics, For(options.nics, name), k);
    }
  }

  /** Models leave IOPS, settings and every CPU and NIC that is there; those they create are as an option row says. */
  lemma {:induction false} ModelsCreate(env: Env, w: Work, options: Options, rows: seq<Row>, overwrite: bool, k: string)
    requires ModelRows(env, w, options, rows, overwrite).Ok?
    ensures var out := ModelRows(env, w, options, rows, overwrite).value.catalog;
            && out.iops == w.catalog.iops && out.settings == w.catalog.settings
            && (k in w.catalog.cpus ==> k in out.cpus && out.cpus[k] == w.catalog.cpus[k])
            && (k in w.catalog.nics ==> k in out.nics && out.nics[k] == w.catalog.nics[k])
            && (k in out.cpus && k !in w.catalog.cpus ==>
                  exists r :: r in rows && CpuFromModel(env, options, r, k, out.cpus[k]))
            && (k in out.nics && k !in w.catalog.nics ==>
                  exists r :: r in rows && NicFromModel(env, options, r, k, out.nics[k]))
  {
    if rows != [] {
      var front, last := rows[..|rows|-1], rows[|rows|-1];
      assert rows == front + [last];
      ModelsCreate(env, w, options, front, overwrite, k);
      ModelCreates(env, ModelRows(env, w, options, front, overwrite).value, options, last, overwrite, k);
    }
  }

  /** Whatever the mode: a CPU or NIC the catalog sheets leave behind stays as they left it; any other comes from an
      option row of a model in the workbook. */
  lemma ImportCreates(env: Env, c: Catalog, wb: Workbook, overwrite: bool, k: string)
    requires Import(env, c, wb, overwrite).Ok?
    ensures ImportParts(env, c, wb, overwrite).Ok?
    ensures var parts, out := ImportParts(env, c, wb, overwrite).value, Import(env, c, wb, overwrite).value;
            && (k in parts.cpus ==> k in out.cpus && out.cpus[k] == parts.cpus[k])
            && (k in parts.nics ==> k in out.nics && out.nics[k] == parts.nics[k])
            && (k in out.cpus && k !in parts.cpus ==>
                  exists o, r :: OptionsOf(env, wb) == Ok(o) && r in Rows(wb, Models)
                                 && CpuFromModel(env, o, r, k, out.cpus[k]))
            && (k in out.nics && k !in parts.nics ==>
                  exists o, r :: OptionsOf(env, wb) == Ok(o) && r in Rows(wb, Models)
                                 && NicFromModel(env, o, r, k, out.nics[k]))
            && out.iops == IopsRows(env, c.iops, Rows(wb, DriveIops), overwrite)
            && out.settings == SettingRows(env, c.settings, Rows(wb, Settings), overwrite)
  {
    var parts := ImportParts(env, c, wb, overwrite).value;
    if Rows(wb, Models) != [] {
      var stor := StorageMap(env, RowsOr(wb, ModelStorage, OldStorage)).value;
      ModelsCreate(env, Work(parts, stor), OptionsOf(env, wb).value, Rows(wb, Models), overwrite, k);
    }
  }
}
