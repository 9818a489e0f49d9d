/** The older sheet names. */
module CatalogSheets {
  import opened CatalogModel
  import opened CatalogImport

  /** The two workbooks hold the same rows wherever the importer looks: the newer sheet, else the older. */
  ghost predicate ReadAlike(a: Workbook, b: Workbook) {
    && (forall s :: s in [Cpus, Nics, Drives, Models, DriveIops, Settings] ==> Rows(a, s) == Rows(b, s))
    && RowsOr(a, ModelCpus, OldCpus) == RowsOr(b, ModelCpus, OldCpus)
    && RowsOr(a, ModelRam, OldRam) == RowsOr(b, ModelRam, OldRam)
    && RowsOr(a, ModelStorage, OldStorage) == RowsOr(b, ModelStorage, OldStorage)
    && RowsOr(a, ModelDrives, OldDrives) == RowsOr(b, ModelDrives, OldDrives)
    && RowsOr(a, ModelNics, OldNics) == RowsOr(b, ModelNics, OldNics)
  }

  lemma PartsAlike(env: Env, c: Catalog, a: Workbook, b: Workbook, overwrite: bool)
    requires Rows(a, Cpus) == Rows(b, Cpus) && Rows(a, Nics) == Rows(b, Nics) && Rows(a, Drives) == Rows(b, Drives)
    ensures ImportParts(env, c, a, overwrite) == ImportParts(env, c, b, overwrite)
  {
  }

  lemma OptionsAlike(env: Env, a: Workbook, b: Workbook)
    requires ReadAlike(a, b)
    ensures OptionsOf(env, a) == OptionsOf(env, b)
  {
  }

  lemma ModelsAlike(env: Env, c: Catalog, a: Workbook, b: Workbook, overwrite: bool)
    requires ReadAlike(a, b) && Rows(a, Models) == Rows(b, Models)
    ensures ImportModels(env, c, a, overwrite) == ImportModels(env, c, b, overwrite)
  {
    OptionsAlike(env, a, b);
  }

  lemma ImportAlike(env: Env, c: Catalog, a: Workbook, b: Workbook, overwrite: bool)
    requires ReadAlike(a, b)
    ensures Import(env, c, a, overwrite) == Import(env, c, b, overwrite)
  {
    assert Rows(a, Cpus) == Rows(b, Cpus) && Rows(a, Nics) == Rows(b, Nics) && Rows(a, Drives) == Rows(b, Drives);
    assert Rows(a, Models) == Rows(b, Models) && Rows(a, DriveIops) == Rows(b, DriveIops);
    assert Rows(a, Settings) == Rows(b, Settings);
    PartsAlike(env, c, a, b, overwrite);
    if ImportParts(env, c, a, overwrite).Ok? {
      ModelsAlike(env, ImportParts(env, c, a, overwrite).value, a, b, overwrite);
    }
  }

  /** The option sheets, newer and older name. */
  const PAIRS: seq<(Sheet, Sheet)> := [(ModelCpus, OldCpus), (ModelRam, OldRam), (ModelStorage, OldStorage),
                                       (ModelDrives, OldDrives), (ModelNics, OldNics)]

  predicate MainSheetsSame(a: Workbook, b: Workbook) {
    forall s :: s in [Cpus, Nics, Drives, Models, DriveIops, Settings] ==> Rows(a, s) == Rows(b, s)
  }

  /** Every option sheet of a, under the newer name, is in b under the older one instead. */
  predicate Outdated(a: Workbook, b: Workbook) {
    && MainSheetsSame(a, b)
    && forall p :: p in PAIRS ==> Rows(a, p.1) == [] && Rows(b, p.0) == [] && Rows(b, p.1) == Rows(a, p.0)
  }

  /** A workbook with its option sheets under the older names imports as one with the newer. */
  lemma OlderNamesRead(env: Env, c: Catalog, a: Workbook, b: Workbook, overwrite: bool)
    requires Outdated(a, b)
    ensures Import(env, c, a, overwrite) == Import(env, c, b, overwrite)
  {
    assert PAIRS[0] in PAIRS && PAIRS[1] in PAIRS && PAIRS[2] in PAIRS && PAIRS[3] in PAIRS && PAIRS[4] in PAIRS;
    ImportAlike(env, c, a, b, overwrite);
  }

  /** Where a newer sheet has rows, the older one is not read. */
  predicate Superseded(a: Workbook, b: Workbook) {
    && MainSheetsSame(a, b)
    && forall p :: p in PAIRS ==> Rows(a, p.0) == Rows(b, p.0) && (Rows(a, p.0) != [] || Rows(a, p.1) == Rows(b, p.1))
  }

  lemma NewerNamesCount(env: Env, c: Catalog, a: Workbook, b: Workbook, overwrite: bool)
    requires Superseded(a, b)
    ensures Import(env, c, a, overwrite) == Import(env, c, b, overwrite)
  {
    assert PAIRS[0] in PAIRS && PAIRS[1] in PAIRS && PAIRS[2] in PAIRS && PAIRS[3] in PAIRS && PAIRS[4] in PAIRS;
    ImportAlike(env, c, a, b, overwrite);
  }
}
