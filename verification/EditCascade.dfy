/** What an edit costs, told from the contents of the files alone. */
module EditCascade {
  import opened Domain
  import opened Persistence
  import opened Driver
  import opened Tiers
  import opened Pyramid
  import opened PyramidCascade

  /** A file the ledger shows as done has its summary stored under the hash of its content. */
  ghost predicate InSync(s: Settings, w: World, files: seq<SourceFile>) {
    forall f <- files | s.IsDone(w.rows, f) :: HasSummary(s, w.summaries, f)
  }

  predicate HasSummary(s: Settings, summaries: SummaryRows, f: SourceFile) {
    SummaryKeyOf(f) in summaries && summaries[SummaryKeyOf(f)].contentHash == s.HashOf(f)
  }

  ghost predicate OfService(files: seq<SourceFile>, service: string) { forall f <- files :: f.service == service }

  lemma SameKeySamePath(a: SourceFile, b: SourceFile)
    requires a.service == b.service && SummaryKeyOf(a) == SummaryKeyOf(b)
    ensures a.Key() == b.Key()
  {
    var prefix := a.service + ":";
    assert (prefix + a.path)[|prefix|..] == a.path && (prefix + b.path)[|prefix|..] == b.path;
  }

  /** Treating the first file leaves every other as done and as summarised as it was. */
  lemma OtherFileStays(s: Settings, g: Gateway, w: World, service: string, files: seq<SourceFile>, today: int,
                       h: SourceFile)
    requires s.quota.Valid() && DistinctKeys(files) && OfService(files, service) && files != [] && h in files[1..]
    ensures var after := Treated(s, g, w, files[0], today, false).world;
            && h.Key() != files[0].Key() && SummaryKeyOf(h) != SummaryKeyOf(files[0])
            && (s.IsDone(after.rows, h) <==> s.IsDone(w.rows, h))
            && SameSummary(w.summaries, after.summaries, SummaryKeyOf(h))
  {
    FirstKeyIsNew(files, h);
    if SummaryKeyOf(h) == SummaryKeyOf(files[0]) {
      SameKeySamePath(h, files[0]);
    }
    assert SameRow(w.rows, Treated(s, g, w, files[0], today, false).world.rows, h.Key());
  }

  /** What the first pass of a clean batch leaves to the rest. */
  lemma CleanBatchHead(s: Settings, g: Gateway, w: World, files: seq<SourceFile>, today: int)
    requires s.quota.Valid() && files != []
    requires var b := SummarisedAll(s, g, w, files, today, false); !b.fault && CleanFiles(b.rows)
    ensures var pass := Treated(s, g, w, files[0], today, false);
            var rest := SummarisedAll(s, g, pass.world, files[1..], today, false);
            && !rest.fault && CleanFiles(rest.rows)
            && SummarisedAll(s, g, w, files, today, false).world == rest.world
            && (!s.IsDone(w.rows, files[0]) ==> HasSummary(s, pass.world.summaries, files[0]))
  {
    var pass := Treated(s, g, w, files[0], today, false);
    CleanFileHead(pass.row, SummarisedAll(s, g, pass.world, files[1..], today, pass.held).rows);
    CleanPass(s, g, w, files[0], today);
  }

  /** A clean batch stores a summary of every file it calls. */
  lemma {:induction false} CalledAreStored(s: Settings, g: Gateway, w: World, service: string, files: seq<SourceFile>,
                                           today: int)
    requires s.quota.Valid() && DistinctKeys(files) && OfService(files, service)
    requires var b := SummarisedAll(s, g, w, files, today, false); !b.fault && CleanFiles(b.rows)
    ensures forall f <- files | !s.IsDone(w.rows, f) ::
              HasSummary(s, SummarisedAll(s, g, w, files, today, false).world.summaries, f)
    decreases |files|
  {
    if files != [] {
      var f, between := files[0], Treated(s, g, w, files[0], today, false).world;
      CleanBatchHead(s, g, w, files, today);
      CalledAreStored(s, g, between, service, files[1..], today);
      forall h <- files[1..]
        ensures SummaryKeyOf(h) != SummaryKeyOf(f) && (s.IsDone(between.rows, h) <==> s.IsDone(w.rows, h))
      {
        OtherFileStays(s, g, w, service, files, today, h);
      }
      SummariesElsewhere(s, g, between, files[1..], today, false, SummaryKeyOf(f));
      assert files == [f] + files[1..];
    }
  }

  /** A clean batch leaves every file with a summary of its content. */
  lemma CleanBatchStores(s: Settings, g: Gateway, w: World, service: string, files: seq<SourceFile>, today: int)
    requires s.quota.Valid() && DistinctKeys(files) && OfService(files, service) && InSync(s, w, files)
    requires var b := SummarisedAll(s, g, w, files, today, false); !b.fault && CleanFiles(b.rows)
    ensures forall f <- files :: HasSummary(s, SummarisedAll(s, g, w, files, today, false).world.summaries, f)
  {
    var after := SummarisedAll(s, g, w, files, today, false).world.summaries;
    CalledAreStored(s, g, w, service, files, today);
    forall f <- files | s.IsDone(w.rows, f) ensures HasSummary(s, after, f) {
      forall h <- files ensures s.IsDone(w.rows, h) || SummaryKeyOf(h) != SummaryKeyOf(f) {
        if SummaryKeyOf(h) == SummaryKeyOf(f) {
          SameKeySamePath(h, f);
          SameKeySameFile(files, h, f);
        }
      }
      SummariesElsewhere(s, g, w, files, today, false, SummaryKeyOf(f));
      assert SameSummary(w.summaries, after, SummaryKeyOf(f));
    }
  }

  lemma {:induction false} BatchKeepsDigests(s: Settings, g: Gateway, w: World, files: seq<SourceFile>, today: int,
                                             held: bool)
    requires s.quota.Valid() && Digests(w.summaries) && forall i :: 0 <= i < |files| ==> Digest(s.HashOf(files[i]))
    ensures Digests(SummarisedAll(s, g, w, files, today, held).world.summaries)
    decreases |files|
  {
    if files != [] {
      var pass := Treated(s, g, w, files[0], today, held);
      assert Digests(pass.world.summaries);
      if !pass.fault {
        BatchKeepsDigests(s, g, pass.world, files[1..], today, pass.held);
      }
    }
  }

  lemma UnitKeepsDigests(t: TierSettings, g: Gateway, w: World, unit: Unit, version: string, today: int, held: bool)
    requires t.base.quota.Valid() && Digests(w.summaries) && forall text :: Digest(t.sha(text))
    ensures Digests(TreatedUnit(t, g, w, unit, version, today, held).world.summaries)
  {
    assert Digest(HigherContentHash(t.sha, unit.childHashes, version));
  }

  lemma {:induction false} UnitsKeepDigests(t: TierSettings, g: Gateway, w: World, units: seq<Unit>, version: string,
                                            today: int, held: bool)
    requires t.base.quota.Valid() && Digests(w.summaries) && forall text :: Digest(t.sha(text))
    ensures Digests(TreatedUnits(t, g, w, units, version, today, held).world.summaries)
    decreases |units|
  {
    if units != [] {
      var pass := TreatedUnit(t, g, w, units[0], version, today, held);
      UnitKeepsDigests(t, g, w, units[0], version, today, held);
      if !pass.fault {
        UnitsKeepDigests(t, g, pass.world, units[1..], version, today, pass.held);
      }
    }
  }

  // ----- Hashes told from contents -----

  /** The same files, edited. */
  ghost predicate Edited(files: seq<SourceFile>, edited: seq<SourceFile>) {
    |files| == |edited| && forall i :: 0 <= i < |files| ==> files[i].Key() == edited[i].Key()
  }

  /** The file stored under a tier-1 key, if it is one of these. */
  ghost function FileAt(files: seq<SourceFile>, key: string): Option<SourceFile> {
    if exists f :: f in files && SummaryKeyOf(f).key == key then
      Some(var f :| f in files && SummaryKeyOf(f).key == key; f)
    else None
  }

  /** The hash of each key's content; of files not among these, the hash stored. */
  ghost function ContentHashes(s: Settings, summaries: SummaryRows, files: seq<SourceFile>,
                               keys: seq<string>): seq<string>
    requires forall k <- keys :: SummaryKey(1, k) in summaries
  {
    seq(|keys|, i requires 0 <= i < |keys| =>
      if FileAt(files, keys[i]).Some? then s.HashOf(FileAt(files, keys[i]).value)
      else summaries[SummaryKey(1, keys[i])].contentHash)
  }

  /** Summaries in sync with some files, and as before for others, hold the hashes of the contents. */
  lemma StoredAreContentHashes(s: Settings, before: SummaryRows, after: SummaryRows, files: seq<SourceFile>,
                               keys: seq<string>)
    requires forall k <- keys :: SummaryKey(1, k) in before && SummaryKey(1, k) in after
    requires forall f <- files :: HasSummary(s, after, f)
    requires forall k <- keys | FileAt(files, k).None? :: SameSummary(before, after, SummaryKey(1, k))
    ensures Hashes(after, 1, keys) == ContentHashes(s, before, files, keys)
  {
    forall i | 0 <= i < |keys| ensures Hashes(after, 1, keys)[i] == ContentHashes(s, before, files, keys)[i] {
      var file := FileAt(files, keys[i]);
      assert keys[i] in keys;
      if file.Some? {
        assert SummaryKeyOf(file.value) == SummaryKey(1, keys[i]);
      }
    }
  }

  // ----- An edit after a clean run -----

  /** The state after a clean run over `files`: everything done, stored and fresh. */
  ghost predicate Settled(t: TierSettings, w: World, service: string, files: seq<SourceFile>) {
    && (forall f <- files :: t.base.IsDone(w.rows, f) && HasSummary(t.base, w.summaries, f))
    && Fresh(t, w.summaries, service) && Digests(w.summaries)
  }

  lemma CleanRunSettles(t: TierSettings, g: Gateway, w: World, service: string, files: seq<SourceFile>, today: int)
    requires t.base.quota.Valid() && DistinctKeys(files) && OfService(files, service) && InSync(t.base, w, files)
    requires CleanActivity(Activity(t, g, w, service, files, today))
    requires Digests(w.summaries) && (forall f <- files :: Digest(t.base.HashOf(f))) && forall text ::
        Digest(t.sha(text))
    ensures Settled(t, Activity(t, g, w, service, files, today).world, service, files)
  {
    var r := Activity(t, g, w, service, files, today);
    var w1, w2 := AfterTier1(t, g, w, files, today), AfterTier2(t, g, w, service, files, today);
    CleanActivityIsFresh(t, g, w, service, files, today);
    CleanBatchStores(t.base, g, w, service, files, today);
    CleanActivityTiers(t, g, w, service, files, today);
    forall f <- files ensures HasSummary(t.base, r.world.summaries, f) {
      assert SameSummary(w1.summaries, w2.summaries, SummaryKeyOf(f));
      assert SameSummary(w2.summaries, r.world.summaries, SummaryKeyOf(f));
    }
    BatchKeepsDigests(t.base, g, w, files, today, false);
    UnitsKeepDigests(t, g, w1, ModuleUnits(t, w1.summaries, service), t.moduleVersion, today, false);
    UnitsKeepDigests(t, g, w2, ServiceUnits(t, w2.summaries, service), t.serviceVersion, today, false);
  }

  /** Tier 1: exactly the files whose content hash differs are called. */
  lemma EditCallsEditedFiles(t: TierSettings, g: Gateway, w: World, service: string, files: seq<SourceFile>,
                             edited: seq<SourceFile>, today: int)
    requires t.base.quota.Valid() && DistinctKeys(files) && Edited(files, edited) && Settled(t, w, service, files)
    requires CleanActivity(Activity(t, g, w, service, edited, today))
    ensures var r := Activity(t, g, w, service, edited, today);
            |r.files| == |edited| && forall i :: 0 <= i < |edited| ==>
              (r.files[i].outcome.WasSummarised? <==> t.base.HashOf(edited[i]) != t.base.HashOf(files[i]))
  {
    assert DistinctKeys(edited);
    FileCascade(t, g, w, service, edited, today);
    forall i | 0 <= i < |edited|
      ensures t.base.IsDone(w.rows, edited[i]) <==> t.base.HashOf(edited[i]) == t.base.HashOf(files[i])
    {
      assert files[i] in files;
    }
  }

  lemma EditedIsInSync(t: TierSettings, w: World, service: string, files: seq<SourceFile>, edited: seq<SourceFile>)
    requires DistinctKeys(files) && OfService(files, service) && Edited(files, edited) && Settled(t, w, service, files)
    ensures DistinctKeys(edited) && OfService(edited, service) && InSync(t.base, w, edited)
    ensures forall f <- edited :: SummaryKeyOf(f) in w.summaries
  {
    forall f <- edited
      ensures f.service == service && SummaryKeyOf(f) in w.summaries
      ensures t.base.IsDone(w.rows, f) ==> HasSummary(t.base, w.summaries, f)
    {
      var i :| 0 <= i < |edited| && edited[i] == f;
      assert files[i] in files && files[i].Key() == f.Key();
      assert SummaryKeyOf(files[i]) == SummaryKeyOf(f);
    }
  }

  /** What tier 1 leaves for the tiers above: the same keys, and the hashes of the edited contents. */
  lemma EditedTier1(t: TierSettings, g: Gateway, w: World, service: string, files: seq<SourceFile>,
                    edited: seq<SourceFile>, today: int)
    requires t.base.quota.Valid() && DistinctKeys(files) && OfService(files, service) && Edited(files, edited)
    requires Settled(t, w, service, files) && CleanActivity(Activity(t, g, w, service, edited, today))
    ensures var w1 := AfterTier1(t, g, w, edited, today);
            && Tier1Keys(w1.summaries, service) == Tier1Keys(w.summaries, service)
            && (forall f <- edited :: HasSummary(t.base, w1.summaries, f))
            && (forall k: SummaryKey | k.tier == 1 && FileAt(edited, k.key).None? ::
                SameSummary(w.summaries, w1.summaries, k))
  {
    var w1 := AfterTier1(t, g, w, edited, today);
    EditedIsInSync(t, w, service, files, edited);
    CleanBatchStores(t.base, g, w, service, edited, today);
    forall k: SummaryKey | k.tier == 1
        && FileAt(edited, k.key).None? ensures SameSummary(w.summaries, w1.summaries, k) {
      assert forall f <- edited :: SummaryKeyOf(f) != k;
      SummariesElsewhere(t.base, g, w, edited, today, false, k);
    }
    SameKeysStored(w.summaries, w1.summaries, edited, service);
  }

  lemma SameKeysStored(a: SummaryRows, b: SummaryRows, files: seq<SourceFile>, service: string)
    requires forall f <- files :: SummaryKeyOf(f) in a && SummaryKeyOf(f) in b
    requires forall k: SummaryKey | k.tier == 1 && FileAt(files, k.key).None? :: SameSummary(a, b, k)
    ensures Tier1Keys(a, service) == Tier1Keys(b, service)
  {
    forall key ensures SummaryKey(1, key) in a <==> SummaryKey(1, key) in b {
      var file := FileAt(files, key);
      if file.Some? {
        assert SummaryKeyOf(file.value) == SummaryKey(1, key);
      } else {
        assert SameSummary(a, b, SummaryKey(1, key));
      }
    }
  }

  /** The hashes of a module's files, from their contents. */
  ghost function ModuleContents(s: Settings, summaries: SummaryRows, service: string, files: seq<SourceFile>,
                                m: string): seq<string> {
    ListedIsDistinct(Tier1Keys(summaries, service));
    ContentHashes(s, summaries, files, FilesIn(service, Listed(Tier1Keys(summaries, service)), m))
  }

  lemma ChildrenBeforeAndAfter(t: TierSettings, g: Gateway, w: World, service: string, files: seq<SourceFile>,
                               edited: seq<SourceFile>, today: int, m: string)
    requires t.base.quota.Valid() && DistinctKeys(files) && OfService(files, service) && Edited(files, edited)
    requires Settled(t, w, service, files) && CleanActivity(Activity(t, g, w, service, edited, today))
    ensures ChildHashes(w.summaries, service, m) == ModuleContents(t.base, w.summaries, service, files, m)
    ensures ChildHashes(AfterTier1(t, g, w, edited, today).summaries, service, m)
         == ModuleContents(t.base, w.summaries, service, edited, m)
  {
    var w1 := AfterTier1(t, g, w, edited, today);
    EditedTier1(t, g, w, service, files, edited, today);
    ListedIsDistinct(Tier1Keys(w.summaries, service));
    var keys := FilesIn(service, Listed(Tier1Keys(w.summaries, service)), m);
    forall k <- keys ensures SummaryKey(1, k) in w.summaries && SummaryKey(1, k) in w1.summaries {
      assert k in Tier1Keys(w.summaries, service) && k in Tier1Keys(w1.summaries, service);
    }
    StoredAreContentHashes(t.base, w.summaries, w.summaries, files, keys);
    StoredAreContentHashes(t.base, w.summaries, w1.summaries, edited, keys);
  }

  /** Tier 2: of the modules there are, which stay the same, exactly those are called whose files' content hashes
      differ as a multiset. */
  lemma EditCallsModulesAbove(t: TierSettings, g: Gateway, w: World, service: string, files: seq<SourceFile>,
                              edited: seq<SourceFile>, today: int, j: nat)
    requires t.base.quota.Valid() && Injective(t.sha) && DistinctKeys(files) && OfService(files, service)
        && Edited(files, edited)
    requires Settled(t, w, service, files) && CleanActivity(Activity(t, g, w, service, edited, today))
    requires forall i :: 0 <= i < |edited| ==> Digest(t.base.HashOf(edited[i]))
    requires j < |Modules(w.summaries, service)|
    ensures var r, m := Activity(t, g, w, service, edited, today), Modules(w.summaries, service)[j];
            && |r.modules| == |Modules(w.summaries, service)| && r.modules[j].key == SummaryKey(2, m)
            && (r.modules[j].Called() <==>
                multiset(ModuleContents(t.base, w.summaries, service, edited, m))
                != multiset(ModuleContents(t.base, w.summaries, service, files, m)))
  {
    var m, w1 := Modules(w.summaries, service)[j], AfterTier1(t, g, w, edited, today);
    assert DistinctKeys(edited);
    EditedTier1(t, g, w, service, files, edited, today);
    BatchKeepsDigests(t.base, g, w, edited, today, false);
    ModuleCascade(t, g, w, service, edited, today, j, j);
    ChildrenBeforeAndAfter(t, g, w, service, files, edited, today, m);
    ModuleUnitsAreDistinct(t, w1.summaries, service);
    CleanRun(t, g, w1, ModuleUnits(t, w1.summaries, service), t.moduleVersion, today);
  }

  // ----- Tier 3 -----

  /** The hash a module's summary carries when it is made from these contents. */
  ghost function ModuleHash(t: TierSettings, summaries: SummaryRows, service: string, files: seq<SourceFile>,
                            m: string): string {
    HigherContentHash(t.sha, ModuleContents(t.base, summaries, service, files, m), t.moduleVersion)
  }

  ghost function ModuleHashesOf(t: TierSettings, summaries: SummaryRows, service: string,
                                files: seq<SourceFile>): seq<string> {
    var modules := Modules(summaries, service);
    seq(|modules|, i requires 0 <= i < |modules| => ModuleHash(t, summaries, service, files, modules[i]))
  }

  lemma {:induction false} AllSummarised(summaries: SummaryRows, modules: seq<string>)
    requires forall m <- modules :: SummaryKey(2, m) in summaries
    ensures WithSummary(summaries, modules) == modules
  {
    if modules != [] {
      AllSummarised(summaries, modules[1..]);
      assert modules == [modules[0]] + modules[1..];
    }
  }

  /** Module summaries that are up to date carry the hashes of their files' contents. */
  lemma FreshModuleHashes(t: TierSettings, before: SummaryRows, below: SummaryRows, summaries: SummaryRows,
                          service: string, files: seq<SourceFile>)
    requires Tier1Keys(before, service) == Tier1Keys(below, service) == Tier1Keys(summaries, service)
    requires AllUpToDate(t, summaries, ModuleUnits(t, below, service), t.moduleVersion)
    requires forall m :: ChildHashes(below, service, m) == ModuleContents(t.base, before, service, files, m)
    ensures WithSummary(summaries, Modules(summaries, service)) == Modules(before, service)
    ensures ModuleHashes(summaries, service) == ModuleHashesOf(t, before, service, files)
  {
    var modules := Modules(before, service);
    forall i | 0 <= i < |modules|
      ensures SummaryKey(2, modules[i]) in summaries
      ensures summaries[SummaryKey(2, modules[i])].contentHash == ModuleHash(t, before, service, files, modules[i])
    {
      ModuleUnitAt(t, below, service, i);
      assert UpToDate(t, summaries, ModuleUnits(t, below, service)[i], t.moduleVersion);
    }
    AllSummarised(summaries, modules);
  }

  /** Tier 3: the service is called exactly when its modules' hashes, made from the contents, differ as a multiset. */
  lemma EditCallsServiceAbove(t: TierSettings, g: Gateway, w: World, service: string, files: seq<SourceFile>,
                              edited: seq<SourceFile>, today: int)
    requires t.base.quota.Valid() && Injective(t.sha) && DistinctKeys(files) && OfService(files, service)
        && Edited(files, edited)
    requires Settled(t, w, service, files) && CleanActivity(Activity(t, g, w, service, edited, today))
    requires forall i :: 0 <= i < |edited| ==> Digest(t.base.HashOf(edited[i]))
    requires forall text :: Digest(t.sha(text))
    requires Modules(w.summaries, service) != []
    ensures var r := Activity(t, g, w, service, edited, today);
            && r.services != [] && r.services[0].key == SummaryKey(3, service)
            && (r.services[0].Called() <==>
                multiset(ModuleHashesOf(t, w.summaries, service, edited))
                != multiset(ModuleHashesOf(t, w.summaries, service, files)))
  {
    var w1, w2 := AfterTier1(t, g, w, edited, today), AfterTier2(t, g, w, service, edited, today);
    assert DistinctKeys(edited);
    EditedTier1(t, g, w, service, files, edited, today);
    BatchKeepsDigests(t.base, g, w, edited, today, false);
    UnitsKeepDigests(t, g, w1, ModuleUnits(t, w1.summaries, service), t.moduleVersion, today, false);
    CleanActivityTiers(t, g, w, service, edited, today);
    forall m ensures ChildHashes(w.summaries, service, m) == ModuleContents(t.base, w.summaries, service, files, m)
             ensures ChildHashes(w1.summaries, service, m) == ModuleContents(t.base, w.summaries, service, edited, m)
    {
      ChildrenBeforeAndAfter(t, g, w, service, files, edited, today, m);
    }
    forall k: SummaryKey | k.tier == 1 ensures SameSummary(w1.summaries, w2.summaries, k) {}
    SameTier1SameKeys(w1.summaries, w2.summaries, service);
    FreshModuleHashes(t, w.summaries, w.summaries, w.summaries, service, files);
    FreshModuleHashes(t, w.summaries, w1.summaries, w2.summaries, service, edited);
    ServiceCascade(t, g, w, service, edited, today);
  }

  lemma SomeModule(s: Settings, summaries: SummaryRows, service: string, f: SourceFile)
    requires f.service == service && HasSummary(s, summaries, f)
    ensures Modules(summaries, service) != []
  {
    var keys := Tier1Keys(summaries, service);
    assert SummaryKeyOf(f).key[..|service| + 1] == service + ":";
    assert SummaryKey(1, SummaryKeyOf(f).key) in summaries;
    assert SummaryKeyOf(f).key in keys;
    ListedIsDistinct(keys);
    assert Listed(keys) != [];
  }

  /** The exact cascade in one statement: after a clean run, editing some files makes the next clean run call
      exactly the files whose content hash differs, exactly the modules whose files' content hashes differ as a
      multiset, and the service exactly when the module hashes made from them do. */
  lemma EditAfterCleanRun(t: TierSettings, g: Gateway, w: World, service: string, files: seq<SourceFile>, today: int,
                          again: Gateway, edited: seq<SourceFile>, later: int)
    requires t.base.quota.Valid() && Injective(t.sha) && DistinctKeys(files) && OfService(files, service) && files != []
    requires InSync(t.base, w, files) && CleanActivity(Activity(t, g, w, service, files, today))
    requires Edited(files, edited)
    requires CleanActivity(Activity(t, again, Activity(t, g, w, service, files, today).world, service, edited, later))
    requires Digests(w.summaries) && (forall text :: Digest(t.sha(text)))
    requires (forall f <- files :: Digest(t.base.HashOf(f))) && forall i :: 0 <= i < |edited| ==>
        Digest(t.base.HashOf(edited[i]))
    ensures var before := Activity(t, g, w, service, files, today).world;
            var r := Activity(t, again, before, service, edited, later);
            var modules := Modules(before.summaries, service);
            && |r.files| == |edited|
            && (forall i :: 0 <= i < |edited| ==>
                  (r.files[i].outcome.WasSummarised? <==> t.base.HashOf(edited[i]) != t.base.HashOf(files[i])))
            && |r.modules| == |modules|
            && (forall j :: 0 <= j < |modules| ==>
                  (r.modules[j].Called() <==>
                   multiset(ModuleContents(t.base, before.summaries, service, edited, modules[j]))
                   != multiset(ModuleContents(t.base, before.summaries, service, files, modules[j]))))
            && r.services != []
            && (r.services[0].Called() <==>
                multiset(ModuleHashesOf(t, before.summaries, service, edited))
                != multiset(ModuleHashesOf(t, before.summaries, service, files)))
  {
    var before := Activity(t, g, w, service, files, today).world;
    CleanRunSettles(t, g, w, service, files, today);
    EditCallsEditedFiles(t, again, before, service, files, edited, later);
    SomeModule(t.base, before.summaries, service, files[0]);
    forall j: nat | j < |Modules(before.summaries, service)| {
      EditCallsModulesAbove(t, again, before, service, files, edited, later, j);
    }
    EditCallsModulesAbove(t, again, before, service, files, edited, later, 0);
    EditCallsServiceAbove(t, again, before, service, files, edited, later);
  }
}
