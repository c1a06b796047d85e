/** Re-running a service activity spends nothing, and a change climbs exactly as far as the child
    hashes it changes. */
module PyramidCascade {
  import opened Ordering
  import opened Text
  import opened Persistence
  import opened Driver
  import opened Tiers
  import opened Pyramid

  // ----- Tier 1 -----

  ghost predicate CleanFiles(rows: seq<ResultRow>) {
    forall i :: 0 <= i < |rows| ==> rows[i].outcome.WasSummarised? || rows[i].outcome.WasSkipped?
  }

  ghost predicate SameSummary(a: SummaryRows, b: SummaryRows, k: SummaryKey) {
    (k in a <==> k in b) && (k in a ==> a[k] == b[k])
  }

  /** The summaries outside the given tier are the same. */
  ghost predicate SameOutsideTier(a: SummaryRows, b: SummaryRows, tier: nat) {
    forall k: SummaryKey | k.tier != tier :: SameSummary(a, b, k)
  }

  /** One pass with a clean outcome: the file is done, and nothing else changes. */
  lemma CleanPass(s: Settings, g: Gateway, w: World, f: SourceFile, today: int)
    requires s.quota.Valid()
    ensures var pass := Treated(s, g, w, f, today, false);
            && (forall key: FileKey | key != f.Key() :: SameRow(w.rows, pass.world.rows, key))
            && (forall k: SummaryKey | s.IsDone(w.rows, f) || k != SummaryKeyOf(f) ::
                SameSummary(w.summaries, pass.world.summaries, k))
            && (pass.row.outcome.WasSummarised? || pass.row.outcome.WasSkipped? ==>
                  && !pass.held && s.IsDone(pass.world.rows, f)
                  && (pass.row.outcome.WasSummarised? <==> !s.IsDone(w.rows, f)))
  {}

  /** The batch touches the ledger rows of its files only. */
  lemma {:induction false} RowsElsewhere(s: Settings, g: Gateway, w: World, files: seq<SourceFile>, today: int,
                                         held: bool, key: FileKey)
    requires s.quota.Valid() && forall f <- files :: f.Key() != key
    ensures SameRow(w.rows, SummarisedAll(s, g, w, files, today, held).world.rows, key)
    decreases |files|
  {
    if files != [] {
      CleanPass(s, g, w, files[0], today);
      var pass := Treated(s, g, w, files[0], today, held);
      if !pass.fault {
        RowsElsewhere(s, g, pass.world, files[1..], today, pass.held, key);
      }
    }
  }

  /** The batch touches the summaries of files it has to call only. */
  lemma {:induction false} SummariesElsewhere(s: Settings, g: Gateway, w: World, files: seq<SourceFile>, today: int,
                                              held: bool, k: SummaryKey)
    requires s.quota.Valid() && DistinctKeys(files)
    requires forall f <- files :: s.IsDone(w.rows, f) || SummaryKeyOf(f) != k
    ensures SameSummary(w.summaries, SummarisedAll(s, g, w, files, today, held).world.summaries, k)
    decreases |files|
  {
    if files != [] {
      var f := files[0];
      CleanPass(s, g, w, f, today);
      var pass := Treated(s, g, w, f, today, held);
      if !pass.fault {
        forall h <- files[1..] ensures s.IsDone(pass.world.rows, h) || SummaryKeyOf(h) != k {
          FirstKeyIsNew(files, h);
          assert SameRow(w.rows, pass.world.rows, h.Key());
        }
        SummariesElsewhere(s, g, pass.world, files[1..], today, pass.held, k);
      }
    }
  }

  lemma FirstKeyIsNew(files: seq<SourceFile>, h: SourceFile)
    requires DistinctKeys(files) && files != [] && h in files[1..]
    ensures h.Key() != files[0].Key() && h in files
  {
    var i :| 0 <= i < |files[1..]| && files[1..][i] == h;
    assert files[i + 1] == h;
  }

  /** One row a file; a file was called exactly when it was not done. */
  ghost predicate CalledUndone(s: Settings, rows0: LedgerRows, files: seq<SourceFile>, rows: seq<ResultRow>) {
    |rows| == |files| && forall i :: 0 <= i < |files| ==>
        (rows[i].outcome.WasSummarised? <==> !s.IsDone(rows0, files[i]))
  }

  ghost predicate AllDone(s: Settings, rows: LedgerRows, files: seq<SourceFile>) {
    forall f <- files :: s.IsDone(rows, f)
  }

  /** After a clean batch every file is done; exactly those that were not done were called. */
  lemma {:induction false} CleanTier1(s: Settings, g: Gateway, w: World, files: seq<SourceFile>, today: int)
    requires s.quota.Valid() && DistinctKeys(files)
    requires !SummarisedAll(s, g, w, files, today, false).fault
        && CleanFiles(SummarisedAll(s, g, w, files, today, false).rows)
    ensures var b := SummarisedAll(s, g, w, files, today, false);
            CalledUndone(s, w.rows, files, b.rows) && AllDone(s, b.world.rows, files)
    decreases |files|
  {
    if files != [] {
      var f := files[0];
      var pass := Treated(s, g, w, f, today, false);
      var rest := SummarisedAll(s, g, pass.world, files[1..], today, pass.held);
      CleanFileHead(pass.row, rest.rows);
      CleanPass(s, g, w, f, today);
      CleanTier1(s, g, pass.world, files[1..], today);
      forall h <- files[1..] ensures h.Key() != f.Key() {
        FirstKeyIsNew(files, h);
      }
      RowsElsewhere(s, g, pass.world, files[1..], today, false, f.Key());
      ConsDone(s, w.rows, pass.world.rows, rest.world.rows, files, pass.row, rest.rows);
    }
  }

  lemma CleanFileHead(row: ResultRow, rows: seq<ResultRow>)
    requires CleanFiles([row] + rows)
    ensures (row.outcome.WasSummarised? || row.outcome.WasSkipped?) && CleanFiles(rows)
  {
    assert ([row] + rows)[0] == row;
    forall i | 0 <= i < |rows| ensures rows[i].outcome.WasSummarised? || rows[i].outcome.WasSkipped? {
      assert ([row] + rows)[i + 1] == rows[i];
    }
  }

  lemma ConsDone(s: Settings, before: LedgerRows, between: LedgerRows, after: LedgerRows,
                 files: seq<SourceFile>, row: ResultRow, rows: seq<ResultRow>)
    requires files != [] && (row.outcome.WasSummarised? <==> !s.IsDone(before, files[0]))
    requires s.IsDone(between, files[0]) && SameRow(between, after, files[0].Key())
    requires forall h <- files[1..] :: SameRow(before, between, h.Key())
    requires CalledUndone(s, between, files[1..], rows) && AllDone(s, after, files[1..])
    ensures CalledUndone(s, before, files, [row] + rows) && AllDone(s, after, files)
  {
    forall i | 1 <= i < |files|
      ensures (([row] + rows)[i].outcome.WasSummarised? <==> !s.IsDone(before, files[i])) && s.IsDone(after, files[i])
    {
      assert files[i] == files[1..][i - 1] && files[1..][i - 1] in files[1..];
      assert SameRow(before, between, files[i].Key());
    }
  }

  lemma {:induction false} DoneTier1IsSkipped(s: Settings, g: Gateway, w: World, files: seq<SourceFile>, today: int)
    requires s.quota.Valid() && forall f <- files :: s.IsDone(w.rows, f)
    ensures var b := SummarisedAll(s, g, w, files, today, false);
            b.world == w && !b.fault && |b.rows| == |files| && forall r <- b.rows :: r.outcome.WasSkipped?
    decreases |files|
  {
    if files != [] {
      DoneTier1IsSkipped(s, g, w, files[1..], today);
    }
  }

  // ----- Tiers 2 and 3 -----

  ghost predicate CleanUnits(rows: seq<UnitRow>) {
    forall i :: 0 <= i < |rows| ==> rows[i].outcome.Generated? || rows[i].outcome.UnitSkipped?
  }

  ghost predicate DistinctUnits(units: seq<Unit>) {
    forall i, j :: 0 <= i < j < |units| ==> units[i].key != units[j].key
  }

  ghost predicate AllUpToDate(t: TierSettings, summaries: SummaryRows, units: seq<Unit>, version: string) {
    forall u <- units :: UpToDate(t, summaries, u, version)
  }

  /** A run touches the summaries of its units only, and no ledger row. */
  lemma {:induction false} UnitsElsewhere(t: TierSettings, g: Gateway, w: World, units: seq<Unit>, version: string,
                                          today: int, held: bool, k: SummaryKey)
    requires t.base.quota.Valid() && forall u <- units :: u.key != k
    ensures SameSummary(w.summaries, TreatedUnits(t, g, w, units, version, today, held).world.summaries, k)
    decreases |units|
  {
    if units != [] {
      var pass := TreatedUnit(t, g, w, units[0], version, today, held);
      if !pass.fault {
        UnitsElsewhere(t, g, pass.world, units[1..], version, today, pass.held, k);
      }
    }
  }

  lemma {:induction false} UnitsKeepLedger(t: TierSettings, g: Gateway, w: World, units: seq<Unit>, version: string,
                                           today: int, held: bool)
    requires t.base.quota.Valid()
    ensures TreatedUnits(t, g, w, units, version, today, held).world.rows == w.rows
    decreases |units|
  {
    if units != [] {
      var pass := TreatedUnit(t, g, w, units[0], version, today, held);
      if !pass.fault {
        UnitsKeepLedger(t, g, pass.world, units[1..], version, today, pass.held);
      }
    }
  }

  lemma CleanUnitPass(t: TierSettings, g: Gateway, w: World, u: Unit, version: string, today: int)
    requires t.base.quota.Valid()
    ensures var pass := TreatedUnit(t, g, w, u, version, today, false);
            && (forall k: SummaryKey | k != u.key :: SameSummary(w.summaries, pass.world.summaries, k))
            && (pass.outcome.Generated? || pass.outcome.UnitSkipped? ==>
                  && !pass.held && UpToDate(t, pass.world.summaries, u, version)
                  && (pass.outcome.Generated? <==> !UpToDate(t, w.summaries, u, version)))
  {}

  lemma FirstUnitIsNew(units: seq<Unit>, v: Unit)
    requires DistinctUnits(units) && units != [] && v in units[1..]
    ensures v.key != units[0].key
  {
    var i :| 0 <= i < |units[1..]| && units[1..][i] == v;
    assert units[i + 1] == v;
  }

  lemma SameSummarySameStatus(t: TierSettings, a: SummaryRows, b: SummaryRows, u: Unit, version: string)
    requires SameSummary(a, b, u.key)
    ensures UpToDate(t, a, u, version) <==> UpToDate(t, b, u, version)
  {}

  /** After a clean run every unit is up to date; exactly the stale ones were called. */
  lemma {:induction false} CleanRun(t: TierSettings, g: Gateway, w: World, units: seq<Unit>, version: string,
                                    today: int)
    requires t.base.quota.Valid() && DistinctUnits(units)
    requires var b := TreatedUnits(t, g, w, units, version, today, false); !b.fault && CleanUnits(b.rows)
    ensures var b := TreatedUnits(t, g, w, units, version, today, false);
            && CalledStale(t, w.summaries, units, b.rows, version)
            && AllUpToDate(t, b.world.summaries, units, version)
    decreases |units|
  {
    if units != [] {
      var u := units[0];
      var pass := TreatedUnit(t, g, w, u, version, today, false);
      var rest := TreatedUnits(t, g, pass.world, units[1..], version, today, pass.held);
      var row := UnitRow(u.key, pass.outcome);
      CleanHead(row, rest.rows);
      CleanUnitPass(t, g, w, u, version, today);
      CleanRun(t, g, pass.world, units[1..], version, today);
      forall v <- units[1..] ensures v.key != u.key {
        FirstUnitIsNew(units, v);
      }
      UnitsElsewhere(t, g, pass.world, units[1..], version, today, false, u.key);
      ConsUpToDate(t, w.summaries, pass.world.summaries, rest.world.summaries, units, row, rest.rows, version);
    }
  }

  /** One row a unit; a unit was called exactly when its stored summary was stale. */
  ghost predicate CalledStale(t: TierSettings, summaries: SummaryRows, units: seq<Unit>, rows: seq<UnitRow>,
                              version: string) {
    |rows| == |units| && forall i :: 0 <= i < |units| ==>
      rows[i].key == units[i].key && (rows[i].Called() <==> !UpToDate(t, summaries, units[i], version))
  }

  lemma CleanHead(row: UnitRow, rows: seq<UnitRow>)
    requires CleanUnits([row] + rows)
    ensures (row.outcome.Generated? || row.outcome.UnitSkipped?) && CleanUnits(rows)
  {
    assert ([row] + rows)[0] == row;
    forall i | 0 <= i < |rows| ensures rows[i].outcome.Generated? || rows[i].outcome.UnitSkipped? {
      assert ([row] + rows)[i + 1] == rows[i];
    }
  }

  lemma ConsUpToDate(t: TierSettings, before: SummaryRows, between: SummaryRows, after: SummaryRows,
                     units: seq<Unit>, row: UnitRow, rows: seq<UnitRow>, version: string)
    requires units != [] && row.key == units[0].key && (row.Called() <==> !UpToDate(t, before, units[0], version))
    requires UpToDate(t, between, units[0], version) && SameSummary(between, after, units[0].key)
    requires forall v <- units[1..] :: SameSummary(before, between, v.key)
    requires CalledStale(t, between, units[1..], rows, version) && AllUpToDate(t, after, units[1..], version)
    ensures CalledStale(t, before, units, [row] + rows, version) && AllUpToDate(t, after, units, version)
  {
    SameSummarySameStatus(t, between, after, units[0], version);
    ConsFresh(t, after, units, version);
    ConsStale(t, before, between, units, row, rows, version);
  }

  lemma ConsFresh(t: TierSettings, after: SummaryRows, units: seq<Unit>, version: string)
    requires units != [] && UpToDate(t, after, units[0], version) && AllUpToDate(t, after, units[1..], version)
    ensures AllUpToDate(t, after, units, version)
  {
    forall v <- units ensures v == units[0] || v in units[1..] {}
  }

  lemma ConsStale(t: TierSettings, before: SummaryRows, between: SummaryRows, units: seq<Unit>, row: UnitRow,
                  rows: seq<UnitRow>, version: string)
    requires units != [] && row.key == units[0].key && (row.Called() <==> !UpToDate(t, before, units[0], version))
    requires forall v <- units[1..] :: SameSummary(before, between, v.key)
    requires CalledStale(t, between, units[1..], rows, version)
    ensures CalledStale(t, before, units, [row] + rows, version)
  {
    forall i: nat | 0 < i < |units|
      ensures rows[i - 1].key == units[i].key && (rows[i - 1].Called() <==> !UpToDate(t, before, units[i], version))
    {
      LaterRowCalled(t, before, between, units, rows, i, version);
    }
  }

  lemma LaterRowCalled(t: TierSettings, before: SummaryRows, between: SummaryRows, units: seq<Unit>, rows: seq<UnitRow>,
                       i: nat, version: string)
    requires 0 < i < |units| && CalledStale(t, between, units[1..], rows, version)
    requires forall v <- units[1..] :: SameSummary(before, between, v.key)
    ensures rows[i - 1].key == units[i].key && (rows[i - 1].Called() <==> !UpToDate(t, before, units[i], version))
  {
    var v := units[1..][i - 1];
    assert v in units[1..] && units[i] == v;
    SameSummarySameStatus(t, before, between, v, version);
  }

  lemma {:induction false} UpToDateIsSkipped(t: TierSettings, g: Gateway, w: World, units: seq<Unit>, version: string,
                                             today: int)
    requires t.base.quota.Valid() && AllUpToDate(t, w.summaries, units, version)
    ensures var b := TreatedUnits(t, g, w, units, version, today, false);
            b.world == w && !b.fault && |b.rows| == |units| && forall r <- b.rows :: r.outcome.UnitSkipped?
    decreases |units|
  {
    if units != [] {
      UpToDateIsSkipped(t, g, w, units[1..], version, today);
    }
  }

  // ----- What the units depend on -----

  lemma SameChildren(a: SummaryRows, b: SummaryRows, tier: nat, keys: seq<string>)
    requires forall k <- keys :: SummaryKey(tier, k) in a && SameSummary(a, b, SummaryKey(tier, k))
    ensures forall k <- keys :: SummaryKey(tier, k) in b
    ensures Hashes(a, tier, keys) == Hashes(b, tier, keys) && Texts(a, tier, keys) == Texts(b, tier, keys)
  {
    forall k <- keys ensures SummaryKey(tier, k) in b && a[SummaryKey(tier, k)] == b[SummaryKey(tier, k)] {
      assert SameSummary(a, b, SummaryKey(tier, k));
    }
  }

  lemma SameTier1SameKeys(a: SummaryRows, b: SummaryRows, service: string)
    requires forall k: SummaryKey | k.tier == 1 :: SameSummary(a, b, k)
    ensures Tier1Keys(a, service) == Tier1Keys(b, service)
    ensures Modules(a, service) == Modules(b, service)
  {
    forall key ensures key in Tier1Keys(a, service) <==> key in Tier1Keys(b, service) {
      assert SameSummary(a, b, SummaryKey(1, key));
    }
  }

  lemma SameTier1SameModules(t: TierSettings, a: SummaryRows, b: SummaryRows, service: string)
    requires forall k: SummaryKey | k.tier == 1 :: SameSummary(a, b, k)
    ensures ModuleUnits(t, a, service) == ModuleUnits(t, b, service)
  {
    SameTier1SameKeys(a, b, service);
    ListedIsDistinct(Tier1Keys(a, service));
    var keys, modules := Listed(Tier1Keys(a, service)), Modules(a, service);
    forall i | 0 <= i < |modules| ensures ModuleUnits(t, a, service)[i] == ModuleUnits(t, b, service)[i] {
      SameChildren(a, b, 1, FilesIn(service, keys, modules[i]));
    }
  }

  lemma SameBelowSameService(t: TierSettings, a: SummaryRows, b: SummaryRows, service: string)
    requires forall k: SummaryKey | k.tier == 1 || k.tier == 2 :: SameSummary(a, b, k)
    ensures ServiceUnits(t, a, service) == ServiceUnits(t, b, service)
  {
    SameTier1SameKeys(a, b, service);
    SameSummarised(a, b, Modules(a, service));
    SameServiceUnit(t, a, b, service, WithSummary(a, Modules(a, service)));
  }

  lemma SameServiceUnit(t: TierSettings, a: SummaryRows, b: SummaryRows, service: string, modules: seq<string>)
    requires forall m <- modules :: SummaryKey(2, m) in a && SameSummary(a, b, SummaryKey(2, m))
    ensures forall m <- modules :: SummaryKey(2, m) in b
    ensures ServiceUnit(t, a, service, modules) == ServiceUnit(t, b, service, modules)
  {
    SameChildren(a, b, 2, modules);
  }

  lemma {:induction false} SameSummarised(a: SummaryRows, b: SummaryRows, modules: seq<string>)
    requires forall k: SummaryKey | k.tier == 2 :: SameSummary(a, b, k)
    ensures WithSummary(a, modules) == WithSummary(b, modules)
  {
    if modules != [] {
      assert SameSummary(a, b, SummaryKey(2, modules[0]));
      SameSummarised(a, b, modules[1..]);
    }
  }

  lemma ModuleUnitsAreDistinct(t: TierSettings, summaries: SummaryRows, service: string)
    ensures DistinctUnits(ModuleUnits(t, summaries, service))
    ensures forall u <- ModuleUnits(t, summaries, service) :: u.key.tier == 2
    ensures forall u <- ServiceUnits(t, summaries, service) :: u.key == SummaryKey(3, service)
  {}

  // ----- The activity as a whole -----

  ghost predicate CleanActivity(r: ActivityResult) {
    !r.fault && CleanFiles(r.files) && CleanUnits(r.modules) && CleanUnits(r.services)
  }

  /** The world between the tiers of a clean activity. */
  ghost function AfterTier1(t: TierSettings, g: Gateway, w: World, files: seq<SourceFile>, today: int): World
    requires t.base.quota.Valid()
  {
    SummarisedAll(t.base, g, w, files, today, false).world
  }

  ghost function AfterTier2(t: TierSettings, g: Gateway, w: World, service: string, files: seq<SourceFile>,
                            today: int): World
    requires t.base.quota.Valid()
  {
    var w1 := AfterTier1(t, g, w, files, today);
    TreatedUnits(t, g, w1, ModuleUnits(t, w1.summaries, service), t.moduleVersion, today, false).world
  }

  /** Every module and service summary was made from the children stored now. */
  ghost predicate Fresh(t: TierSettings, summaries: SummaryRows, service: string) {
    && AllUpToDate(t, summaries, ModuleUnits(t, summaries, service), t.moduleVersion)
    && AllUpToDate(t, summaries, ServiceUnits(t, summaries, service), t.serviceVersion)
  }

  lemma Tier1ChangesTier1(s: Settings, g: Gateway, w: World, files: seq<SourceFile>, today: int)
    requires s.quota.Valid() && DistinctKeys(files)
    ensures SameOutsideTier(w.summaries, SummarisedAll(s, g, w, files, today, false).world.summaries, 1)
  {
    forall k: SummaryKey | k.tier != 1 ensures SameSummary(w.summaries,
        SummarisedAll(s, g, w, files, today, false).world.summaries, k) {
      SummariesElsewhere(s, g, w, files, today, false, k);
    }
  }

  lemma UnitsChangeTheirTier(t: TierSettings, g: Gateway, w: World, units: seq<Unit>, version: string, today: int,
                             tier: nat)
    requires t.base.quota.Valid() && forall u <- units :: u.key.tier == tier
    ensures var b := TreatedUnits(t, g, w, units, version, today, false);
            SameOutsideTier(w.summaries, b.world.summaries, tier) && b.world.rows == w.rows
  {
    UnitsKeepLedger(t, g, w, units, version, today, false);
    forall k: SummaryKey | k.tier != tier
      ensures SameSummary(w.summaries, TreatedUnits(t, g, w, units, version, today, false).world.summaries, k)
    {
      UnitsElsewhere(t, g, w, units, version, today, false, k);
    }
  }

  /** What each tier of a clean activity changes. */
  lemma CleanActivityTiers(t: TierSettings, g: Gateway, w: World, service: string, files: seq<SourceFile>, today: int)
    requires t.base.quota.Valid() && DistinctKeys(files) && CleanActivity(Activity(t, g, w, service, files, today))
    ensures var r := Activity(t, g, w, service, files, today);
            var w1, w2 := AfterTier1(t, g, w, files, today), AfterTier2(t, g, w, service, files, today);
            && r.world.rows == w2.rows == w1.rows
            && SameOutsideTier(w.summaries, w1.summaries, 1)
            && SameOutsideTier(w1.summaries, w2.summaries, 2)
            && SameOutsideTier(w2.summaries, r.world.summaries, 3)
            && AllUpToDate(t, w2.summaries, ModuleUnits(t, w1.summaries, service), t.moduleVersion)
            && AllUpToDate(t, r.world.summaries, ServiceUnits(t, w2.summaries, service), t.serviceVersion)
  {
    var w1, w2 := AfterTier1(t, g, w, files, today), AfterTier2(t, g, w, service, files, today);
    Tier1ChangesTier1(t.base, g, w, files, today);
    ModuleUnitsAreDistinct(t, w1.summaries, service);
    ModuleUnitsAreDistinct(t, w2.summaries, service);
    UnitsChangeTheirTier(t, g, w1, ModuleUnits(t, w1.summaries, service), t.moduleVersion, today, 2);
    UnitsChangeTheirTier(t, g, w2, ServiceUnits(t, w2.summaries, service), t.serviceVersion, today, 3);
    CleanRun(t, g, w1, ModuleUnits(t, w1.summaries, service), t.moduleVersion, today);
    CleanRun(t, g, w2, ServiceUnits(t, w2.summaries, service), t.serviceVersion, today);
  }

  /** A clean activity leaves every file done and the service's pyramid fresh. */
  lemma CleanActivityIsFresh(t: TierSettings, g: Gateway, w: World, service: string, files: seq<SourceFile>, today: int)
    requires t.base.quota.Valid() && DistinctKeys(files) && CleanActivity(Activity(t, g, w, service, files, today))
    ensures var r := Activity(t, g, w, service, files, today);
            (forall f <- files :: t.base.IsDone(r.world.rows, f)) && Fresh(t, r.world.summaries, service)
  {
    var r := Activity(t, g, w, service, files, today);
    var w1, w2 := AfterTier1(t, g, w, files, today), AfterTier2(t, g, w, service, files, today);
    CleanTier1(t.base, g, w, files, today);
    CleanActivityTiers(t, g, w, service, files, today);
    forall k: SummaryKey | k.tier == 1 ensures SameSummary(w1.summaries, r.world.summaries, k) {}
    SameTier1SameModules(t, w1.summaries, r.world.summaries, service);
    SameBelowSameService(t, w2.summaries, r.world.summaries, service);
    ModuleUnitsAreDistinct(t, r.world.summaries, service);
    forall u <- ModuleUnits(t, r.world.summaries, service) ensures UpToDate(t, r.world.summaries, u, t.moduleVersion) {
      assert SameSummary(w2.summaries, r.world.summaries, u.key);
    }
  }

  /** Idempotence: after a run without hold or dead letter, running the activity again makes no
      gateway call and changes nothing at all. */
  lemma RerunSpendsNothing(t: TierSettings, g: Gateway, w: World, service: string, files: seq<SourceFile>, today: int,
                           again: Gateway, later: int)
    requires t.base.quota.Valid() && DistinctKeys(files) && CleanActivity(Activity(t, g, w, service, files, today))
    ensures var r := Activity(t, g, w, service, files, today);
            var rerun := Activity(t, again, r.world, service, files, later);
            && rerun.world == r.world && !rerun.fault
            && (forall row <- rerun.files :: row.outcome.WasSkipped?)
            && (forall row <- rerun.modules + rerun.services :: row.outcome.UnitSkipped?)
  {
    var r := Activity(t, g, w, service, files, today);
    CleanActivityIsFresh(t, g, w, service, files, today);
    DoneTier1IsSkipped(t.base, again, r.world, files, later);
    UpToDateIsSkipped(t, again, r.world, ModuleUnits(t, r.world.summaries, service), t.moduleVersion, later);
    UpToDateIsSkipped(t, again, r.world, ServiceUnits(t, r.world.summaries, service), t.serviceVersion, later);
  }

  // ----- The cascade -----

  ghost predicate Digests(summaries: SummaryRows) { forall k <- summaries :: Digest(summaries[k].contentHash) }

  /** The module hashes a service summary is made from. */
  ghost function ModuleHashes(summaries: SummaryRows, service: string): seq<string> {
    Hashes(summaries, 2, WithSummary(summaries, Modules(summaries, service)))
  }

  /** What a module unit is made from. */
  lemma ModuleUnitAt(t: TierSettings, summaries: SummaryRows, service: string, i: nat)
    requires i < |Modules(summaries, service)|
    ensures var units, m := ModuleUnits(t, summaries, service), Modules(summaries, service)[i];
            && i < |units| && units[i] in units
            && units[i].key == SummaryKey(2, m) && units[i].childHashes == ChildHashes(summaries, service, m)
            && (Digests(summaries) ==> forall h <- units[i].childHashes :: Digest(h))
  {
    var keys := Listed(Tier1Keys(summaries, service));
    ListedIsDistinct(Tier1Keys(summaries, service));
    HashesAreDigests(summaries, 1, FilesIn(service, keys, Modules(summaries, service)[i]));
  }

  lemma HashesAreDigests(summaries: SummaryRows, tier: nat, keys: seq<string>)
    requires forall k <- keys :: SummaryKey(tier, k) in summaries
    ensures Digests(summaries) ==> forall h <- Hashes(summaries, tier, keys) :: Digest(h)
  {}

  lemma ServiceUnitMadeFrom(t: TierSettings, summaries: SummaryRows, service: string)
    requires ServiceUnits(t, summaries, service) != []
    ensures var unit := ServiceUnits(t, summaries, service)[0];
            && unit in ServiceUnits(t, summaries, service)
            && unit.key == SummaryKey(3, service) && unit.childHashes == ModuleHashes(summaries, service)
            && (Digests(summaries) ==> forall h <- unit.childHashes :: Digest(h))
  {
    HashesAreDigests(summaries, 2, WithSummary(summaries, Modules(summaries, service)));
  }

  /** With a summary made from `was`, a unit is stale exactly when its children changed as a multiset. */
  lemma StaleIffChildrenChanged(t: TierSettings, before: SummaryRows, after: SummaryRows, was: Unit, now: Unit,
                                version: string)
    requires Injective(t.sha) && was.key == now.key
    requires (forall h <- was.childHashes :: Digest(h)) && (forall h <- now.childHashes :: Digest(h))
    requires UpToDate(t, before, was, version) && SameSummary(before, after, now.key)
    ensures UpToDate(t, after, now, version) <==> multiset(was.childHashes) == multiset(now.childHashes)
  {
    HashIdentifiesChildren(t.sha, was.childHashes, now.childHashes, version);
  }

  /** Over summaries where `was` is up to date, a clean run calls the i-th unit, now with the same key,
      exactly when the multiset of child hashes changed. */
  lemma CalledIffChildrenChanged(t: TierSettings, g: Gateway, before: SummaryRows, w: World, was: Unit,
                                 units: seq<Unit>, i: nat, version: string, today: int)
    requires t.base.quota.Valid() && Injective(t.sha) && DistinctUnits(units) && i < |units| && was.key == units[i].key
    requires var b := TreatedUnits(t, g, w, units, version, today, false); !b.fault && CleanUnits(b.rows)
    requires (forall h <- was.childHashes :: Digest(h)) && (forall h <- units[i].childHashes :: Digest(h))
    requires UpToDate(t, before, was, version) && SameSummary(before, w.summaries, was.key)
    ensures var b := TreatedUnits(t, g, w, units, version, today, false);
            && i < |b.rows| && b.rows[i].key == was.key
            && (b.rows[i].Called() <==> multiset(units[i].childHashes) != multiset(was.childHashes))
  {
    CleanRun(t, g, w, units, version, today);
    StaleIffChildrenChanged(t, before, w.summaries, was, units[i], version);
  }

  /** Exact cascade, tier 1: a clean activity calls exactly the files whose content is not yet done. */
  lemma FileCascade(t: TierSettings, g: Gateway, w: World, service: string, files: seq<SourceFile>, today: int)
    requires t.base.quota.Valid() && DistinctKeys(files) && CleanActivity(Activity(t, g, w, service, files, today))
    ensures var r := Activity(t, g, w, service, files, today);
            CalledUndone(t.base, w.rows, files, r.files)
  {
    CleanTier1(t.base, g, w, files, today);
  }

  /** Exact cascade, tier 2: a clean activity over a fresh pyramid calls a known module exactly when
      the multiset of its files' hashes changed. */
  lemma ModuleCascade(t: TierSettings, g: Gateway, w: World, service: string, files: seq<SourceFile>, today: int,
                      i: nat, j: nat)
    requires t.base.quota.Valid() && Injective(t.sha) && DistinctKeys(files)
    requires Fresh(t, w.summaries, service) && CleanActivity(Activity(t, g, w, service, files, today))
    requires Digests(w.summaries) && Digests(AfterTier1(t, g, w, files, today).summaries)
    requires var after := Modules(AfterTier1(t, g, w, files, today).summaries, service);
             i < |after| && j < |Modules(w.summaries, service)| && after[i] == Modules(w.summaries, service)[j]
    ensures var r, w1 := Activity(t, g, w, service, files, today), AfterTier1(t, g, w, files, today);
            var m := Modules(w.summaries, service)[j];
            && i < |r.modules| && r.modules[i].key == SummaryKey(2, m)
            && (r.modules[i].Called() <==>
                multiset(ChildHashes(w1.summaries, service, m)) != multiset(ChildHashes(w.summaries, service, m)))
  {
    var w1 := AfterTier1(t, g, w, files, today);
    Tier1ChangesTier1(t.base, g, w, files, today);
    ModuleUnitAt(t, w.summaries, service, j);
    ModuleUnitAt(t, w1.summaries, service, i);
    ModuleUnitsAreDistinct(t, w1.summaries, service);
    var was := ModuleUnits(t, w.summaries, service)[j];
    assert SameSummary(w.summaries, w1.summaries, was.key);
    CalledIffChildrenChanged(t, g, w.summaries, w1, was, ModuleUnits(t, w1.summaries, service), i, t.moduleVersion,
        today);
  }

  /** Exact cascade, tier 3: the service is called exactly when the multiset of its module hashes changed. */
  lemma ServiceCascade(t: TierSettings, g: Gateway, w: World, service: string, files: seq<SourceFile>, today: int)
    requires t.base.quota.Valid() && Injective(t.sha) && DistinctKeys(files)
    requires Fresh(t, w.summaries, service) && CleanActivity(Activity(t, g, w, service, files, today))
    requires ServiceUnits(t, w.summaries, service) != []
    requires Digests(w.summaries) && Digests(AfterTier2(t, g, w, service, files, today).summaries)
    requires ServiceUnits(t, AfterTier2(t, g, w, service, files, today).summaries, service) != []
    ensures var r, w2 := Activity(t, g, w, service, files, today), AfterTier2(t, g, w, service, files, today);
            && r.services != [] && r.services[0].key == SummaryKey(3, service)
            && (r.services[0].Called() <==>
                multiset(ModuleHashes(w2.summaries, service)) != multiset(ModuleHashes(w.summaries, service)))
  {
    var w2 := AfterTier2(t, g, w, service, files, today);
    CleanActivityTiers(t, g, w, service, files, today);
    ServiceUnitMadeFrom(t, w.summaries, service);
    ServiceUnitMadeFrom(t, w2.summaries, service);
    ModuleUnitsAreDistinct(t, w2.summaries, service);
    var was := ServiceUnits(t, w.summaries, service)[0];
    assert SameSummary(w.summaries, w2.summaries, was.key);
    CalledIffChildrenChanged(t, g, w.summaries, w2, was, ServiceUnits(t, w2.summaries, service), 0, t.serviceVersion,
        today);
  }

  // ----- The cascade climbs only through changed modules -----

  ghost function KeysIn(summaries: SummaryRows, service: string, m: string): set<string> {
    set k | k in Tier1Keys(summaries, service) && ModuleOf(service, k) == m
  }

  lemma {:induction false} FilesInKeepsOrder(service: string, keys: seq<string>, m: string)
    requires SortedBy(keys, StringLeq) && Distinct(keys)
    ensures SortedBy(FilesIn(service, keys, m), StringLeq) && Distinct(FilesIn(service, keys, m))
  {
    if keys != [] {
      var init, last := keys[..|keys| - 1], keys[|keys| - 1];
      FilesInKeepsOrder(service, init, m);
      var before := FilesIn(service, init, m);
      forall i | 0 <= i < |before| ensures StringLeq(before[i], last) && before[i] != last {
        assert before[i] in init;
        var j :| 0 <= j < |init| && init[j] == before[i];
        assert keys[j] == before[i];
      }
    }
  }

  lemma ListedIsSorted(keys: set<string>)
    ensures SortedBy(Listed(keys), StringLeq)
  {
    StringOrderIsTotal();
    SortSorts(Enumerated(keys), StringLeq);
  }

  /** A module with the same files and the same file summaries has the same children, in the same order. */
  lemma SameFilesSameChildren(a: SummaryRows, b: SummaryRows, service: string, m: string)
    requires KeysIn(a, service, m) == KeysIn(b, service, m)
    requires forall k <- KeysIn(a, service, m) :: SameSummary(a, b, SummaryKey(1, k))
    ensures ChildHashes(a, service, m) == ChildHashes(b, service, m)
  {
    var ka, kb := Tier1Keys(a, service), Tier1Keys(b, service);
    ListedIsDistinct(ka);
    ListedIsDistinct(kb);
    ListedIsSorted(ka);
    ListedIsSorted(kb);
    FilesInKeepsOrder(service, Listed(ka), m);
    FilesInKeepsOrder(service, Listed(kb), m);
    var fa, fb := FilesIn(service, Listed(ka), m), FilesIn(service, Listed(kb), m);
    assert forall k :: k in fa <==> k in KeysIn(a, service, m);
    assert forall k :: k in fb <==> k in KeysIn(b, service, m);
    DistinctSameContents(fa, fb);
    StringOrderIsTotal();
    SortedArrangementUnique(fa, fb, StringLeq);
    SameChildren(a, b, 1, fa);
  }

  /** When no file that has to be called lies in a module, the module keeps its children. */
  lemma UntouchedModuleKeepsChildren(t: TierSettings, g: Gateway, w: World, service: string, files: seq<SourceFile>,
                                     today: int, m: string)
    requires t.base.quota.Valid() && DistinctKeys(files)
    requires forall f <- files :: t.base.IsDone(w.rows, f) || !StartsWith(SummaryKeyOf(f).key, service + ":")
                                  || ModuleOf(service, SummaryKeyOf(f).key) != m
    ensures ChildHashes(AfterTier1(t, g, w, files, today).summaries, service, m) == ChildHashes(w.summaries, service, m)
  {
    var w1 := AfterTier1(t, g, w, files, today);
    forall k | StartsWith(k, service + ":") && ModuleOf(service, k) == m
      ensures SameSummary(w.summaries, w1.summaries, SummaryKey(1, k))
    {
      SummariesElsewhere(t.base, g, w, files, today, false, SummaryKey(1, k));
    }
    forall k ensures k in KeysIn(w.summaries, service, m) <==> k in KeysIn(w1.summaries, service, m) {
      if StartsWith(k, service + ":") && ModuleOf(service, k) == m {
        assert SameSummary(w.summaries, w1.summaries, SummaryKey(1, k));
      }
    }
    SameFilesSameChildren(w1.summaries, w.summaries, service, m);
  }

  /** The multiset key has a blind spot: two files of one module that exchange their contents leave
      the module's key unchanged, so the module summary is not regenerated. */
  lemma SwappedContentsLeaveModuleUpToDate(t: TierSettings, before: SummaryRows, after: SummaryRows, m: string,
                                           keys: seq<string>, i: nat, j: nat)
    requires i < |keys| && j < |keys| && (forall k <- keys :: SummaryKey(1, k) in before && SummaryKey(1, k) in after)
    requires Hashes(after, 1, keys) == Hashes(before, 1, keys)[i := Hashes(before, 1, keys)[j]][j :=
        Hashes(before, 1, keys)[i]]
    requires SameSummary(before, after, SummaryKey(2, m))
    requires UpToDate(t, before, ModuleUnit(t, before, m, keys), t.moduleVersion)
    ensures UpToDate(t, after, ModuleUnit(t, after, m, keys), t.moduleVersion)
  {
    SwapIsPermutation(Hashes(before, 1, keys), i, j);
    HashIgnoresOrder(t.sha, Hashes(after, 1, keys), Hashes(before, 1, keys), t.moduleVersion);
  }

  lemma SwapIsPermutation(s: seq<string>, i: nat, j: nat)
    requires i < |s| && j < |s|
    ensures multiset(s[i := s[j]][j := s[i]]) == multiset(s)
  {}
}
