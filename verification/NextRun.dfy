/** What the next clean run of a service calls, for any stored state and any list of files, told from the
    contents (`backend/orchestration/activities.py`, `backend/summarise/higher.py`). */
module NextRun {
  import opened Domain
  import opened Text
  import opened Persistence
  import opened Driver
  import opened Tiers
  import opened Pyramid
  import opened PyramidCascade
  import opened EditCascade

  // ----- Tier 1 -----

  ghost function StoredHash(summaries: SummaryRows, key: string): Option<string> {
    if SummaryKey(1, key) in summaries then Some(summaries[SummaryKey(1, key)].contentHash) else None
  }

  /** The hash stored for a key after the run: that of the content of a file the ledger does not show as done, else
      the one stored before, if any. */
  ghost function NextHash(s: Settings, w: World, files: seq<SourceFile>, key: string): Option<string> {
    var f := FileAt(files, key);
    if f.Some? && !s.IsDone(w.rows, f.value) then Some(s.HashOf(f.value)) else StoredHash(w.summaries, key)
  }

  /** What tier 1 leaves stored, key by key. */
  lemma NextTier1(s: Settings, g: Gateway, w: World, service: string, files: seq<SourceFile>, today: int, key: string)
    requires s.quota.Valid() && DistinctKeys(files) && OfService(files, service)
    requires var b := SummarisedAll(s, g, w, files, today, false); !b.fault && CleanFiles(b.rows)
    ensures StoredHash(SummarisedAll(s, g, w, files, today, false).world.summaries, key) == NextHash(s, w, files, key)
  {
    var after := SummarisedAll(s, g, w, files, today, false).world.summaries;
    var at := FileAt(files, key);
    CalledAreStored(s, g, w, service, files, today);
    if at.Some? && !s.IsDone(w.rows, at.value) {
      assert SummaryKeyOf(at.value) == SummaryKey(1, key);
    } else {
      forall f <- files ensures s.IsDone(w.rows, f) || SummaryKeyOf(f) != SummaryKey(1, key) {
        if SummaryKeyOf(f) == SummaryKey(1, key) {
          OneFileAt(files, service, key, f);
        }
      }
      SummariesElsewhere(s, g, w, files, today, false, SummaryKey(1, key));
      assert SameSummary(w.summaries, after, SummaryKey(1, key));
    }
  }

  lemma OneFileAt(files: seq<SourceFile>, service: string, key: string, f: SourceFile)
    requires DistinctKeys(files) && OfService(files, service) && f in files && SummaryKeyOf(f).key == key
    ensures FileAt(files, key) == Some(f)
  {
    var at := FileAt(files, key).value;
    SameKeySamePath(at, f);
    SameKeySameFile(files, at, f);
  }

  /** A clean batch leaves every file with a summary of its content exactly when every file the ledger showed as
      done had one. */
  lemma CleanBatchStoresIffInSync(s: Settings, g: Gateway, w: World, service: string, files: seq<SourceFile>,
                                  today: int)
    requires s.quota.Valid() && DistinctKeys(files) && OfService(files, service)
    requires var b := SummarisedAll(s, g, w, files, today, false); !b.fault && CleanFiles(b.rows)
    ensures (forall f <- files :: HasSummary(s, SummarisedAll(s, g, w, files, today, false).world.summaries, f))
       <==> InSync(s, w, files)
  {
    var after := SummarisedAll(s, g, w, files, today, false).world.summaries;
    forall f <- files
      ensures HasSummary(s, after, f) <==> !s.IsDone(w.rows, f) || HasSummary(s, w.summaries, f)
    {
      var key := SummaryKeyOf(f).key;
      OneFileAt(files, service, key, f);
      NextTier1(s, g, w, service, files, today, key);
      assert SummaryKeyOf(f) == SummaryKey(1, key);
    }
  }

  // ----- The tiers above, as the run will find them -----

  /** Tier-1 keys of the service after the run: those stored, and those of the files called. */
  ghost function NextKeys(s: Settings, w: World, service: string, files: seq<SourceFile>): set<string> {
    Tier1Keys(w.summaries, service)
    + set f | f in files && !s.IsDone(w.rows, f) && StartsWith(SummaryKeyOf(f).key, service + ":") ::
        SummaryKeyOf(f).key
  }

  ghost function NextModules(s: Settings, w: World, service: string, files: seq<SourceFile>): seq<string> {
    ModulesOf(service, Listed(NextKeys(s, w, service, files)))
  }

  /** The hashes a module will be made from. */
  ghost function NextChildren(s: Settings, w: World, service: string, files: seq<SourceFile>, m: string): seq<string> {
    var keys := FilesIn(service, Listed(NextKeys(s, w, service, files)), m);
    seq(|keys|, i requires 0 <= i < |keys| => HashOr(NextHash(s, w, files, keys[i])))
  }

  function HashOr(hash: Option<string>): string { if hash.Some? then hash.value else "" }

  ghost function NextModuleHash(t: TierSettings, w: World, service: string, files: seq<SourceFile>, m: string): string {
    HigherContentHash(t.sha, NextChildren(t.base, w, service, files, m), t.moduleVersion)
  }

  ghost function NextModuleHashes(t: TierSettings, w: World, service: string, files: seq<SourceFile>): seq<string> {
    var modules := NextModules(t.base, w, service, files);
    seq(|modules|, i requires 0 <= i < |modules| => NextModuleHash(t, w, service, files, modules[i]))
  }

  lemma KeysAfter(s: Settings, w: World, after: SummaryRows, service: string, files: seq<SourceFile>)
    requires DistinctKeys(files) && OfService(files, service)
    requires forall key :: StoredHash(after, key) == NextHash(s, w, files, key)
    ensures Tier1Keys(after, service) == NextKeys(s, w, service, files)
  {
    forall key ensures key in Tier1Keys(after, service) <==> key in NextKeys(s, w, service, files) {
      assert StoredHash(after, key) == NextHash(s, w, files, key);
      assert key in Tier1Keys(after, service) <==> StoredHash(after, key).Some? && StartsWith(key, service + ":");
      assert key in Tier1Keys(w.summaries, service) <==>
          StoredHash(w.summaries, key).Some? && StartsWith(key, service + ":");
      if f :| f in files && !s.IsDone(w.rows, f) && SummaryKeyOf(f).key == key {
        OneFileAt(files, service, key, f);
      }
    }
  }

  lemma ChildrenAfter(s: Settings, w: World, after: SummaryRows, service: string, files: seq<SourceFile>, m: string)
    requires DistinctKeys(files) && OfService(files, service)
    requires forall key :: StoredHash(after, key) == NextHash(s, w, files, key)
    ensures ChildHashes(after, service, m) == NextChildren(s, w, service, files, m)
  {
    KeysAfter(s, w, after, service, files);
    ListedIsDistinct(Tier1Keys(after, service));
    var keys := FilesIn(service, Listed(Tier1Keys(after, service)), m);
    forall i | 0 <= i < |keys| ensures ChildHashes(after, service, m)[i] == HashOr(NextHash(s, w, files, keys[i])) {
      assert keys[i] in keys && keys[i] in Tier1Keys(after, service);
      assert StoredHash(after, keys[i]) == NextHash(s, w, files, keys[i]);
    }
  }

  /** The stored summary is one made from children of this hash. */
  predicate StoredUnder(summaries: SummaryRows, key: SummaryKey, hash: string) {
    key in summaries && summaries[key].contentHash == hash
  }

  ghost predicate StoredAsNext(s: Settings, w: World, files: seq<SourceFile>, after: SummaryRows) {
    forall key :: StoredHash(after, key) == NextHash(s, w, files, key)
  }

  /** The unit of the j-th module. */
  lemma NextModuleUnit(t: TierSettings, w: World, after: SummaryRows, service: string, files: seq<SourceFile>, j: nat)
    requires DistinctKeys(files) && OfService(files, service) && StoredAsNext(t.base, w, files, after)
    requires j < |NextModules(t.base, w, service, files)|
    ensures var units, m := ModuleUnits(t, after, service), NextModules(t.base, w, service, files)[j];
            && Modules(after, service) == NextModules(t.base, w, service, files)
            && |units| == |NextModules(t.base, w, service, files)| && units[j] in units
            && units[j].key == SummaryKey(2, m)
            && units[j].childHashes == NextChildren(t.base, w, service, files, m)
  {
    KeysAfter(t.base, w, after, service, files);
    ModuleUnitAt(t, after, service, j);
    ChildrenAfter(t.base, w, after, service, files, NextModules(t.base, w, service, files)[j]);
  }

  /** Tier 2 of the next clean run: exactly the modules whose stored summary is not of these children are called. */
  lemma NextRunCallsModules(t: TierSettings, g: Gateway, w: World, service: string, files: seq<SourceFile>, today: int,
                            j: nat)
    requires t.base.quota.Valid() && DistinctKeys(files) && OfService(files, service)
    requires CleanActivity(Activity(t, g, w, service, files, today))
    requires j < |NextModules(t.base, w, service, files)|
    ensures var r, m := Activity(t, g, w, service, files, today), NextModules(t.base, w, service, files)[j];
            && |r.modules| == |NextModules(t.base, w, service, files)| && r.modules[j].key == SummaryKey(2, m)
            && (r.modules[j].Called() <==>
                !StoredUnder(w.summaries, SummaryKey(2, m), NextModuleHash(t, w, service, files, m)))
  {
    var w1, m := AfterTier1(t, g, w, files, today), NextModules(t.base, w, service, files)[j];
    forall key {
      NextTier1(t.base, g, w, service, files, today, key);
    }
    NextModuleUnit(t, w, w1.summaries, service, files, j);
    ModuleUnitsAreDistinct(t, w1.summaries, service);
    CleanRun(t, g, w1, ModuleUnits(t, w1.summaries, service), t.moduleVersion, today);
    Tier1ChangesTier1(t.base, g, w, files, today);
    assert SameSummary(w.summaries, w1.summaries, SummaryKey(2, m));
  }

  lemma NextModulesCount(t: TierSettings, g: Gateway, w: World, service: string, files: seq<SourceFile>, today: int)
    requires t.base.quota.Valid() && DistinctKeys(files) && OfService(files, service)
    requires CleanActivity(Activity(t, g, w, service, files, today))
    ensures |Activity(t, g, w, service, files, today).modules| == |NextModules(t.base, w, service, files)|
  {
    var w1 := AfterTier1(t, g, w, files, today);
    forall key {
      NextTier1(t.base, g, w, service, files, today, key);
    }
    KeysAfter(t.base, w, w1.summaries, service, files);
    ModuleUnitsAreDistinct(t, w1.summaries, service);
    CleanRun(t, g, w1, ModuleUnits(t, w1.summaries, service), t.moduleVersion, today);
  }

  /** What tier 2 leaves: every module of the run has a summary of its children. */
  lemma NextTier2(t: TierSettings, g: Gateway, w: World, service: string, files: seq<SourceFile>, today: int)
    requires t.base.quota.Valid() && DistinctKeys(files) && OfService(files, service)
    requires CleanActivity(Activity(t, g, w, service, files, today))
    ensures var after, modules := AfterTier2(t, g, w, service, files, today).summaries,
        NextModules(t.base, w, service, files);
            && WithSummary(after, Modules(after, service)) == modules
            && ModuleHashes(after, service) == NextModuleHashes(t, w, service, files)
  {
    var w1, w2 := AfterTier1(t, g, w, files, today), AfterTier2(t, g, w, service, files, today);
    forall key {
      NextTier1(t.base, g, w, service, files, today, key);
    }
    CleanActivityTiers(t, g, w, service, files, today);
    KeysAfter(t.base, w, w1.summaries, service, files);
    forall k: SummaryKey | k.tier == 1 ensures SameSummary(w1.summaries, w2.summaries, k) {}
    SameTier1SameKeys(w1.summaries, w2.summaries, service);
    ModulesStored(t, w, w1.summaries, w2.summaries, service, files);
    StoredModuleHashes(t, w, w2.summaries, service, files);
  }

  lemma StoredModuleHashes(t: TierSettings, w: World, after: SummaryRows, service: string, files: seq<SourceFile>)
    requires Modules(after, service) == NextModules(t.base, w, service, files)
    requires var modules := NextModules(t.base, w, service, files);
             forall i :: 0 <= i < |modules| ==>
               StoredUnder(after, SummaryKey(2, modules[i]), NextModuleHash(t, w, service, files, modules[i]))
    ensures WithSummary(after, Modules(after, service)) == NextModules(t.base, w, service, files)
    ensures ModuleHashes(after, service) == NextModuleHashes(t, w, service, files)
  {
    StoredHashes(after, NextModules(t.base, w, service, files), NextModuleHashes(t, w, service, files));
  }

  lemma StoredHashes(summaries: SummaryRows, modules: seq<string>, hashes: seq<string>)
    requires |hashes| == |modules|
    requires forall i :: 0 <= i < |modules| ==> StoredUnder(summaries, SummaryKey(2, modules[i]), hashes[i])
    ensures WithSummary(summaries, modules) == modules
    ensures Hashes(summaries, 2, WithSummary(summaries, modules)) == hashes
  {
    AllSummarised(summaries, modules);
  }

  lemma ModulesStored(t: TierSettings, w: World, below: SummaryRows, after: SummaryRows, service: string,
                      files: seq<SourceFile>)
    requires DistinctKeys(files) && OfService(files, service) && StoredAsNext(t.base, w, files, below)
    requires AllUpToDate(t, after, ModuleUnits(t, below, service), t.moduleVersion)
    ensures var modules := NextModules(t.base, w, service, files);
            forall i :: 0 <= i < |modules| ==>
              StoredUnder(after, SummaryKey(2, modules[i]), NextModuleHash(t, w, service, files, modules[i]))
  {
    var modules := NextModules(t.base, w, service, files);
    forall i | 0 <= i < |modules|
      ensures StoredUnder(after, SummaryKey(2, modules[i]), NextModuleHash(t, w, service, files, modules[i]))
    {
      NextModuleUnit(t, w, below, service, files, i);
      assert UpToDate(t, after, ModuleUnits(t, below, service)[i], t.moduleVersion);
    }
  }

  /** Tier 3 of the next clean run: there is a unit exactly when there is a module, and it is called exactly when the
      stored summary is not of these module hashes. */
  lemma NextRunCallsService(t: TierSettings, g: Gateway, w: World, service: string, files: seq<SourceFile>, today: int)
    requires t.base.quota.Valid() && DistinctKeys(files) && OfService(files, service)
    requires CleanActivity(Activity(t, g, w, service, files, today))
    ensures var r := Activity(t, g, w, service, files, today);
            var hash := HigherContentHash(t.sha, NextModuleHashes(t, w, service, files), t.serviceVersion);
            && (r.services == [] <==> NextModules(t.base, w, service, files) == [])
            && (r.services != [] ==>
                  && r.services[0].key == SummaryKey(3, service)
                  && (r.services[0].Called() <==> !StoredUnder(w.summaries, SummaryKey(3, service), hash)))
  {
    var w1, w2 := AfterTier1(t, g, w, files, today), AfterTier2(t, g, w, service, files, today);
    NextTier2(t, g, w, service, files, today);
    ModuleUnitsAreDistinct(t, w2.summaries, service);
    CleanRun(t, g, w2, ServiceUnits(t, w2.summaries, service), t.serviceVersion, today);
    CleanActivityTiers(t, g, w, service, files, today);
    assert SameSummary(w.summaries, w1.summaries, SummaryKey(3, service));
    assert SameSummary(w1.summaries, w2.summaries, SummaryKey(3, service));
    if ServiceUnits(t, w2.summaries, service) != [] {
      ServiceUnitMadeFrom(t, w2.summaries, service);
    }
  }

  /** The whole cascade, exactly, for any stored state and any files of the service: a clean run calls the files
      the ledger does not show as done, the modules whose stored summary is not of the children they will have, and
      the service if its stored summary is not of the module hashes they will have. */
  lemma NextCleanRun(t: TierSettings, g: Gateway, w: World, service: string, files: seq<SourceFile>, today: int)
    requires t.base.quota.Valid() && DistinctKeys(files) && OfService(files, service)
    requires CleanActivity(Activity(t, g, w, service, files, today))
    ensures var r, modules := Activity(t, g, w, service, files, today), NextModules(t.base, w, service, files);
            var hash := HigherContentHash(t.sha, NextModuleHashes(t, w, service, files), t.serviceVersion);
            && CalledUndone(t.base, w.rows, files, r.files)
            && |r.modules| == |modules|
            && (forall j :: 0 <= j < |modules| ==>
                  && r.modules[j].key == SummaryKey(2, modules[j])
                  && (r.modules[j].Called() <==>
                      !StoredUnder(w.summaries, SummaryKey(2, modules[j]),
                          NextModuleHash(t, w, service, files, modules[j]))))
            && (r.services == [] <==> modules == [])
            && (r.services != [] ==>
                  (r.services[0].Called() <==> !StoredUnder(w.summaries, SummaryKey(3, service), hash)))
  {
    FileCascade(t, g, w, service, files, today);
    NextModulesCount(t, g, w, service, files, today);
    forall j: nat | j < |NextModules(t.base, w, service, files)| {
      NextRunCallsModules(t, g, w, service, files, today, j);
    }
    NextRunCallsService(t, g, w, service, files, today);
  }

  // ----- After a clean run -----

  /** After a clean run, a module that is known then is called exactly when the multiset of its child hashes will
      be another, whatever files have come, gone or changed. */
  lemma KnownModuleCalledIffChildrenDiffer(t: TierSettings, g: Gateway, w: World, service: string,
                                           files: seq<SourceFile>, today: int, j: nat)
    requires t.base.quota.Valid() && Injective(t.sha) && DistinctKeys(files) && OfService(files, service)
    requires CleanActivity(Activity(t, g, w, service, files, today)) && Fresh(t, w.summaries, service)
    requires j < |NextModules(t.base, w, service, files)|
    requires NextModules(t.base, w, service, files)[j] in Modules(w.summaries, service)
    requires Digests(w.summaries) && forall f <- files :: Digest(t.base.HashOf(f))
    ensures var r, m := Activity(t, g, w, service, files, today), NextModules(t.base, w, service, files)[j];
            |r.modules| == |NextModules(t.base, w, service, files)|
            && (r.modules[j].Called() <==>
                multiset(NextChildren(t.base, w, service, files, m)) != multiset(ChildHashes(w.summaries, service, m)))
  {
    var m := NextModules(t.base, w, service, files)[j];
    var i :| 0 <= i < |Modules(w.summaries, service)| && Modules(w.summaries, service)[i] == m;
    ModuleUnitAt(t, w.summaries, service, i);
    assert UpToDate(t, w.summaries, ModuleUnits(t, w.summaries, service)[i], t.moduleVersion);
    NextRunCallsModules(t, g, w, service, files, today, j);
    NextAreDigests(t.base, w, service, files, m);
    HashIdentifiesChildren(t.sha, NextChildren(t.base, w, service, files, m), ChildHashes(w.summaries, service, m),
                           t.moduleVersion);
  }

  lemma NextIsDigest(s: Settings, w: World, service: string, files: seq<SourceFile>, key: string)
    requires DistinctKeys(files) && OfService(files, service)
    requires Digests(w.summaries) && forall f <- files :: Digest(s.HashOf(f))
    requires key in NextKeys(s, w, service, files)
    ensures Digest(HashOr(NextHash(s, w, files, key)))
  {
    if f :| f in files && !s.IsDone(w.rows, f) && SummaryKeyOf(f).key == key {
      OneFileAt(files, service, key, f);
    } else {
      assert SummaryKey(1, key) in w.summaries;
    }
  }

  lemma NextAreDigests(s: Settings, w: World, service: string, files: seq<SourceFile>, m: string)
    requires DistinctKeys(files) && OfService(files, service)
    requires Digests(w.summaries) && forall f <- files :: Digest(s.HashOf(f))
    ensures forall h <- NextChildren(s, w, service, files, m) :: Digest(h)
  {
    var keys := FilesIn(service, Listed(NextKeys(s, w, service, files)), m);
    ListedIsDistinct(NextKeys(s, w, service, files));
    forall i | 0 <= i < |keys| ensures Digest(HashOr(NextHash(s, w, files, keys[i]))) {
      assert keys[i] in keys;
      NextIsDigest(s, w, service, files, keys[i]);
    }
  }

  /** A file that is gone leaves no trace: after a clean run, a run over some of the files calls nothing and changes
      nothing, so modules keep summaries made from files that no longer exist. */
  lemma LostFilesAreNotSeen(t: TierSettings, g: Gateway, w: World, service: string, files: seq<SourceFile>, today: int,
                            again: Gateway, kept: seq<SourceFile>, later: int)
    requires t.base.quota.Valid() && DistinctKeys(files) && CleanActivity(Activity(t, g, w, service, files, today))
    requires forall f <- kept :: f in files
    ensures var r := Activity(t, g, w, service, files, today);
            var rerun := Activity(t, again, r.world, service, kept, later);
            && rerun.world == r.world && !rerun.fault
            && (forall row <- rerun.files :: row.outcome.WasSkipped?)
            && (forall row <- rerun.modules + rerun.services :: row.outcome.UnitSkipped?)
  {
    var r := Activity(t, g, w, service, files, today);
    CleanActivityIsFresh(t, g, w, service, files, today);
    DoneTier1IsSkipped(t.base, again, r.world, kept, later);
    UpToDateIsSkipped(t, again, r.world, ModuleUnits(t, r.world.summaries, service), t.moduleVersion, later);
    UpToDateIsSkipped(t, again, r.world, ServiceUnits(t, r.world.summaries, service), t.serviceVersion, later);
  }
}
